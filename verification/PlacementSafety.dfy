/**
 Safety of the placement protocol over every interleaving: an order under a client order id is
 created at most once, and once more for each placement that ended without a record; recorded
 outcomes are true; nothing is sent twice without proof or such an end. Ids must not be shared by
 intents, and the ledger must have room for all intents, cancellations included.
 */
module PlacementSafety {
  import opened Placement
  import opened Sums
  import opened Wrappers

  // ---------------------------------------------------------------------------
  // Framing
  // ---------------------------------------------------------------------------

  ghost predicate SameMessages(s: System, t: System, c: string) {
    forall m: Message :: m.cid == c ==>
      && (m in s.transit <==> m in t.transit)
      && (m in s.accepted <==> m in t.accepted)
      && (m in s.unrecorded <==> m in t.unrecorded)
  }

  lemma SameMessagesSameFacts(s: System, t: System, c: string)
    requires SameMessages(s, t, c)
    ensures Alive(s, c) <==> Alive(t, c)
    ensures Exists(s, c) <==> Exists(t, c)
    ensures Live(s, c) <==> Live(t, c)
    ensures ExistsKept(s, c) <==> ExistsKept(t, c)
    ensures UnrecordedUnder(s, c) == UnrecordedUnder(t, c)
  {
    assert forall m: Message :: m.cid == c ==> (m in s.transit + s.accepted <==> m in t.transit + t.accepted);
  }

  /** Two networks that differ at most in one id's counts and messages. */
  ghost predicate NetworkChangesOnly(s: System, t: System, c: string) {
    && (forall d :: d != c ==>
          CountOf(s.sends, d) == CountOf(t.sends, d) && CountOf(s.proofs, d) == CountOf(t.proofs, d))
    && (forall d :: d != c ==> SameMessages(s, t, d))
  }

  /** Two managers that differ at most in one id's placement and its intent's record, which is then about the id. */
  ghost predicate ManagerChangesOnly(m: Manager, n: Manager, u: Use) {
    && m.ledger.Keys <= n.ledger.Keys
    && (forall j :: j in n.ledger ==>
          (j in m.ledger && n.ledger[j] == m.ledger[j]) || (j == u.intent && n.ledger[j].cid == u.cid))
    && (forall d :: d != u.cid ==> (d in m.inFlight <==> d in n.inFlight))
    && (forall d :: d != u.cid && d in m.inFlight ==> m.inFlight[d] == n.inFlight[d])
  }

  /** An event about one use is good for every use of another id. */
  lemma OtherGood(trust: Trust, s: System, t: System, u: Use, v: Use)
    requires Good(trust, s, v) && v.cid != u.cid
    requires ManagerChangesOnly(s.manager, t.manager, u) && NetworkChangesOnly(s, t, u.cid)
    requires t.cancelled == s.cancelled
    ensures Good(trust, t, v)
  {
    assert SameMessages(s, t, v.cid);
    SameMessagesSameFacts(s, t, v.cid);
    hide SameMessages, Alive, Exists, Live, ExistsKept, UnrecordedUnder;
  }

  /** An event about one use is safe when it is good for that use. */
  lemma Assemble(trust: Trust, s: System, t: System, calls: Calls, u: Use)
    requires Safe(trust, s, calls) && OneOwner(calls.uses) && u in calls.uses
    requires Filed(t.manager, calls) && OneLive(t)
    requires ManagerChangesOnly(s.manager, t.manager, u) && NetworkChangesOnly(s, t, u.cid)
    requires Good(trust, t, u) && t.cancelled == s.cancelled
    ensures Safe(trust, t, calls)
  {
    hide Good, Filed, OneLive, ManagerChangesOnly, NetworkChangesOnly;
    forall v | v in calls.uses ensures Good(trust, t, v) {
      if v.cid == u.cid {
        assert v == u;
      } else {
        OtherGood(trust, s, t, u, v);
      }
    }
  }

  // ---------------------------------------------------------------------------
  // The manager's moves
  // ---------------------------------------------------------------------------

  /** Every intent the ledger can hold. */
  function Known(calls: Calls): set<string> {
    IntentsOf(calls.uses) + calls.cancels
  }

  /** The ledger never holds more than there are intents. */
  lemma LedgerWithin(m: Manager, calls: Calls, i: string, entry: Entry)
    requires Filed(m, calls) && (Use(i, entry.cid) in calls.uses || i in calls.cancels)
    ensures var ledger := m.ledger[i := entry];
            && |ledger| <= |Known(calls)|
            && |ledger| == |m.ledger| + if i in m.ledger then 0 else 1
  {
    var ledger := m.ledger[i := entry];
    assert ledger.Keys == m.ledger.Keys + {i};
    forall j | j in ledger ensures j in Known(calls) {
      if j !in calls.cancels {
        assert Use(j, ledger[j].cid) in calls.uses;
      }
    }
    hide *;
    SubsetSize(ledger.Keys, Known(calls));
    assert |ledger| == |ledger.Keys| && |m.ledger| == |m.ledger.Keys|;
  }

  /** With room for all intents, recording one evicts nothing. */
  lemma RecordFits(limits: Limits, m: Manager, calls: Calls, i: string, entry: Entry)
    requires Filed(m, calls) && (Use(i, entry.cid) in calls.uses || i in calls.cancels) && Fits(limits, calls)
    ensures var r := Record(limits, m, i, entry);
            && r.ledger == m.ledger[i := entry] && r.inFlight == m.inFlight
            && Filed(r, calls)
  {
    LedgerWithin(m, calls, i, entry);
    hide IntentsOf;
    var order := if i in m.ledger then m.order else m.order + [i];
    assert forall x :: x in order <==> x in m.order || x == i;
  }

  /** Moving a placement on keeps the books, and changes one task and at most one record. */
  lemma MoveToKeeps(limits: Limits, m: Manager, calls: Calls, u: Use, phase: Phase, message: nat)
    requires Filed(m, calls) && Fits(limits, calls)
    requires u.cid in m.inFlight && m.inFlight[u.cid].intent == u.intent
    ensures var r := MoveTo(limits, m, u.cid, phase, message);
            && Filed(r, calls)
            && r.inFlight == m.inFlight[u.cid := m.inFlight[u.cid].(phase := phase, message := message)]
            && r.ledger == if phase.Settled? && phase.verdict != FAILED
                           then m.ledger[u.intent := Entry(u.cid, phase.verdict)] else m.ledger
    ensures ManagerChangesOnly(m, MoveTo(limits, m, u.cid, phase, message), u)
  {
    var moved := m.(inFlight := m.inFlight[u.cid := m.inFlight[u.cid].(phase := phase, message := message)]);
    assert u == Use(u.intent, u.cid) && u in calls.uses;
    assert Filed(moved, calls);
    if phase.Settled? && phase.verdict != FAILED {
      RecordFits(limits, moved, calls, u.intent, Entry(u.cid, phase.verdict));
    }
  }

  // ---------------------------------------------------------------------------
  // One event at a time
  // ---------------------------------------------------------------------------

  /** The next number under an id is unused. */
  lemma SendLive(s: System, c: string)
    requires OneLive(s) && !Live(s, c)
    ensures OneLive(Send(s, c)) && NetworkChangesOnly(s, Send(s, c), c)
    ensures CountOf(Send(s, c).sends, c) == CountOf(s.sends, c) + 1
    ensures Message(c, CountOf(s.sends, c)) !in s.unrecorded && UnrecordedUnder(Send(s, c), c) == UnrecordedUnder(s, c)
  {
    var n := CountOf(s.sends, c);
    assert Message(c, n) !in s.transit + s.accepted + s.unrecorded;
    var t := Send(s, c);
    assert forall m :: m in t.transit + t.accepted + t.unrecorded <==>
                       m in s.transit + s.accepted + s.unrecorded || m == Message(c, n);
    assert forall m :: m in t.transit + t.accepted <==> m in s.transit + s.accepted || m == Message(c, n);
  }

  /** Starting a placement keeps the books and touches one id's task. */
  lemma StartKeeps(m: Manager, calls: Calls, u: Use, readable: bool, message: nat)
    requires Filed(m, calls) && u in calls.uses
    ensures Filed(Start(m, u.intent, readable, u.cid, message), calls)
    ensures ManagerChangesOnly(m, Start(m, u.intent, readable, u.cid, message), u)
  {
    assert u == Use(u.intent, u.cid);
  }

  lemma PlaceSafe(trust: Trust, limits: Limits, calls: Calls, s: System, u: Use, readable: bool)
    requires Safe(trust, s, calls) && OneOwner(calls.uses) && u in calls.uses
    ensures Safe(trust, Next(limits, s, Place(u, readable)), calls)
  {
    if Starts(s.manager, u.intent, u.cid) {
      var t, sent, n := Next(limits, s, Place(u, readable)), Send(s, u.cid), CountOf(s.sends, u.cid);
      assert Good(trust, s, u) && !Live(s, u.cid);
      assert t == sent.(manager := Start(s.manager, u.intent, readable, u.cid, n));
      assert sent.proofs == s.proofs && sent.unrecorded == s.unrecorded && sent.cancelled == s.cancelled;
      hide Next, Send, Starts, Start, Good, Filed, Live;
      StartKeeps(s.manager, calls, u, readable, n);
      SendLive(s, u.cid);
      NetworkOf(s, sent, t, u.cid);
      OneLiveOfMessages(sent, t);
      hide OneLive, NetworkChangesOnly, ManagerChangesOnly, UnrecordedUnder;
      StartedGood(trust, s, t, u, readable);
      Assemble(trust, s, t, calls, u);
    }
  }

  lemma StartedGood(trust: Trust, s: System, t: System, u: Use, readable: bool)
    requires Good(trust, s, u) && Starts(s.manager, u.intent, u.cid)
    requires t.manager == Start(s.manager, u.intent, readable, u.cid, CountOf(s.sends, u.cid))
    requires CountOf(t.sends, u.cid) == CountOf(s.sends, u.cid) + 1
    requires t.proofs == s.proofs && t.unrecorded == s.unrecorded && t.cancelled == s.cancelled
    requires Message(u.cid, CountOf(s.sends, u.cid)) !in s.unrecorded
    ensures Good(trust, t, u)
  {
    assert UnrecordedUnder(t, u.cid) == UnrecordedUnder(s, u.cid);
    hide Live, Exists, ExistsKept, UnrecordedUnder;
  }

  lemma NetworkOf(s: System, sent: System, t: System, c: string)
    requires NetworkChangesOnly(s, sent, c)
    requires t.sends == sent.sends && t.proofs == sent.proofs
    requires t.transit == sent.transit && t.accepted == sent.accepted && t.unrecorded == sent.unrecorded
    ensures NetworkChangesOnly(s, t, c)
    ensures UnrecordedUnder(t, c) == UnrecordedUnder(sent, c)
  {
    forall d | d != c ensures SameMessages(s, t, d) {
      assert SameMessages(s, sent, d);
    }
  }

  lemma OneLiveOfMessages(s: System, t: System)
    requires OneLive(s) && t.sends == s.sends
    requires t.transit == s.transit && t.accepted == s.accepted && t.unrecorded == s.unrecorded
    ensures OneLive(t)
  {
  }

  /** Moving a message along or losing it: nothing comes to life, and nothing that exists goes. */
  lemma NetworkEventSafe(trust: Trust, calls: Calls, s: System, t: System)
    requires Safe(trust, s, calls)
    requires t.manager == s.manager && t.sends == s.sends && t.proofs == s.proofs
    requires t.unrecorded == s.unrecorded && t.cancelled == s.cancelled
    requires t.transit + t.accepted <= s.transit + s.accepted && s.accepted <= t.accepted && t.transit !! t.accepted
    ensures Safe(trust, t, calls)
  {
    assert OneLive(t) by {
      assert forall m :: m in t.transit + t.accepted ==> m in s.transit + s.accepted;
    }
    hide OneLive, Filed;
    forall u | u in calls.uses ensures Good(trust, t, u) {
      assert Good(trust, s, u);
      assert UnrecordedUnder(t, u.cid) == UnrecordedUnder(s, u.cid);
      assert Live(t, u.cid) ==> Live(s, u.cid);
      assert Exists(s, u.cid) ==> Exists(t, u.cid);
      assert ExistsKept(s, u.cid) ==> ExistsKept(t, u.cid);
      hide Live, Exists, ExistsKept, UnrecordedUnder;
    }
  }

  lemma AcceptSafe(trust: Trust, limits: Limits, calls: Calls, s: System, m: Message)
    requires Safe(trust, s, calls) && m in s.transit
    ensures Safe(trust, Next(limits, s, Accept(m)), calls)
  {
    NetworkEventSafe(trust, calls, s, Next(limits, s, Accept(m)));
  }

  lemma LoseSafe(trust: Trust, limits: Limits, calls: Calls, s: System, m: Message)
    requires Safe(trust, s, calls) && m in s.transit
    ensures Safe(trust, Next(limits, s, Lose(m)), calls)
  {
    NetworkEventSafe(trust, calls, s, Next(limits, s, Lose(m)));
  }

  /** Only the last message under an id is live, so an answer about it is an answer about the id. */
  lemma LastIsAll(s: System, c: string, n: nat)
    requires OneLive(s) && n + 1 == CountOf(s.sends, c)
    ensures Message(c, n) !in s.accepted && Message(c, n) !in s.transit ==> !Live(s, c)
    ensures Message(c, n) in s.unrecorded ==> !Live(s, c)
    ensures Message(c, n) in s.accepted && Message(c, n) !in s.unrecorded ==> ExistsKept(s, c)
  {
  }

  /** The network behind a placement that moved on. */
  lemma EndedNetwork(s: System, m: Message, phase: Phase, unsent: bool)
    requires OneLive(s) && m.n + 1 == CountOf(s.sends, m.cid) && m !in s.unrecorded
    ensures var t := Ended(s, m, phase, unsent);
            var lost := phase == Settled(FAILED) && !unsent;
            && OneLive(t) && NetworkChangesOnly(s, t, m.cid) && t.sends == s.sends && t.cancelled == s.cancelled
            && CountOf(t.proofs, m.cid) ==
               CountOf(s.proofs, m.cid) + (if phase == Settled(FAILED) && unsent then 1 else 0)
            && |UnrecordedUnder(t, m.cid)| == |UnrecordedUnder(s, m.cid)| + (if lost then 1 else 0)
            && (Exists(s, m.cid) ==> Exists(t, m.cid))
            && (!lost ==> t.unrecorded == s.unrecorded && (ExistsKept(s, m.cid) ==> ExistsKept(t, m.cid)))
            && (Live(t, m.cid) ==> Live(s, m.cid))
            && (lost ==> !Live(t, m.cid))
  {
    var t := Ended(s, m, phase, unsent);
    if phase == Settled(FAILED) && !unsent {
      UnrecordedNetwork(s, t, m);
    } else {
      assert UnrecordedUnder(t, m.cid) == UnrecordedUnder(s, m.cid);
    }
  }

  lemma UnrecordedNetwork(s: System, t: System, m: Message)
    requires OneLive(s) && m.n + 1 == CountOf(s.sends, m.cid) && m !in s.unrecorded
    requires t == s.(unrecorded := s.unrecorded + {m})
    ensures OneLive(t) && NetworkChangesOnly(s, t, m.cid)
    ensures |UnrecordedUnder(t, m.cid)| == |UnrecordedUnder(s, m.cid)| + 1
    ensures (Exists(s, m.cid) <==> Exists(t, m.cid)) && !Live(t, m.cid)
  {
    assert UnrecordedUnder(t, m.cid) == UnrecordedUnder(s, m.cid) + {m};
    assert m !in UnrecordedUnder(s, m.cid);
    assert OneLive(t);
    LastIsAll(t, m.cid, m.n);
  }

  /** What becomes of the use whose placement moves on without another send. */
  lemma SettledGood(trust: Trust, s: System, t: System, u: Use, phase: Phase, message: nat)
    requires Good(trust, s, u) && WaitsFor(s.manager, u.cid) && message == s.manager.inFlight[u.cid].message
    requires !phase.Sending?
    requires t.manager.inFlight ==
             s.manager.inFlight[u.cid := s.manager.inFlight[u.cid].(phase := phase, message := message)]
    requires t.manager.ledger == if phase.Settled? && phase.verdict != FAILED
                                 then s.manager.ledger[u.intent := Entry(u.cid, phase.verdict)] else s.manager.ledger
    requires t.sends == s.sends && t.cancelled == s.cancelled
    requires CountOf(t.proofs, u.cid) + |UnrecordedUnder(t, u.cid)|
             == CountOf(s.proofs, u.cid) + |UnrecordedUnder(s, u.cid)| + (if phase == Settled(FAILED) then 1 else 0)
    requires Live(t, u.cid) ==> Live(s, u.cid)
    requires phase.Polling? ==> t.unrecorded == s.unrecorded
    requires phase == Settled(ACKED) ==> ExistsKept(t, u.cid)
    requires phase == Settled(RECONCILED) ==> Exists(t, u.cid)
    requires phase == Settled(REJECTED) && trust.apiErrorsAreFinal ==> !Live(t, u.cid)
    requires phase == Settled(FAILED) ==> !Live(t, u.cid)
    ensures Good(trust, t, u)
  {
    hide Live, Exists, ExistsKept, UnrecordedUnder;
  }

  lemma CreateReturnsSafe(trust: Trust, limits: Limits, calls: Calls, s: System, c: string, reply: CreateReply)
    requires Safe(trust, s, calls) && OneOwner(calls.uses) && Fits(limits, calls)
    requires Enabled(s, CreateReturns(c, reply)) && Allowed(trust, s, CreateReturns(c, reply))
    ensures Safe(trust, Next(limits, s, CreateReturns(c, reply)), calls)
  {
    var task := s.manager.inFlight[c];
    var m := Message(c, task.message);
    var phase := AfterCreate(limits, task.readable, task.phase.submission, reply);
    var t := Next(limits, s, CreateReturns(c, reply));
    assert t == Ended(s, m, phase, reply.NotSent?).(manager := MoveTo(limits, s.manager, c, phase, task.message));
    LastIsAll(s, c, task.message);
    CreateFacts(limits, trust, s, c, reply, phase);
    hide Next, MoveTo, Ended, Allowed, AfterCreate;
    MovedSafe(trust, limits, calls, s, t, c, phase, reply.NotSent?);
  }

  /** A placement moves on without another send, to an end that is true. */
  lemma MovedSafe(
    trust: Trust, limits: Limits, calls: Calls, s: System, t: System, c: string, phase: Phase, unsent: bool)
    requires Safe(trust, s, calls) && OneOwner(calls.uses) && Fits(limits, calls)
    requires WaitsFor(s.manager, c) && !phase.Sending?
    requires var n := s.manager.inFlight[c].message;
             t == Ended(s, Message(c, n), phase, unsent).(manager := MoveTo(limits, s.manager, c, phase, n))
    requires phase == Settled(ACKED) ==> ExistsKept(s, c)
    requires phase == Settled(RECONCILED) ==> Exists(s, c)
    requires phase == Settled(REJECTED) && trust.apiErrorsAreFinal ==> !Live(s, c)
    requires phase == Settled(FAILED) && unsent ==> !Live(s, c)
    ensures Safe(trust, t, calls)
  {
    var task := s.manager.inFlight[c];
    var u, m := Use(task.intent, c), Message(c, task.message);
    var r := Ended(s, m, phase, unsent);
    assert u in calls.uses && Good(trust, s, u);
    MoveToKeeps(limits, s.manager, calls, u, phase, task.message);
    EndedNetwork(s, m, phase, unsent);
    NetworkOf(s, r, t, c);
    OneLiveOfMessages(r, t);
    SameAsBehind(r, t, c);
    hide MoveTo, Filed, OneLive, ManagerChangesOnly, NetworkChangesOnly, SameMessages, Live, Exists, ExistsKept;
    hide UnrecordedUnder, Ended, Good;
    SettledGood(trust, s, t, u, phase, task.message);
    Assemble(trust, s, t, calls, u);
  }

  lemma SameAsBehind(r: System, t: System, c: string)
    requires t == r.(manager := t.manager)
    ensures Live(t, c) <==> Live(r, c)
    ensures (Exists(t, c) <==> Exists(r, c)) && (ExistsKept(t, c) <==> ExistsKept(r, c))
  {
  }

  lemma CreateFacts(limits: Limits, trust: Trust, s: System, c: string, reply: CreateReply, phase: Phase)
    requires Enabled(s, CreateReturns(c, reply)) && Allowed(trust, s, CreateReturns(c, reply))
    requires var t := s.manager.inFlight[c]; phase == AfterCreate(limits, t.readable, t.phase.submission, reply)
    ensures !phase.Sending? && phase != Settled(RECONCILED)
    ensures reply.NotSent? ==> phase == Settled(FAILED)
    ensures phase == Settled(ACKED) ==> reply.Created?
    ensures phase == Settled(REJECTED) ==> reply.ApiError?
    ensures phase.Polling? ==> reply.NoReply?
  {
  }

  lemma FetchFacts(limits: Limits, trust: Trust, s: System, c: string, reply: FetchReply, phase: Phase)
    requires Enabled(s, FetchReturns(c, reply)) && Allowed(trust, s, FetchReturns(c, reply))
    requires var t := s.manager.inFlight[c];
             phase == AfterFetch(limits, t.readable, t.phase.submission, t.phase.attempt, reply)
    ensures phase != Settled(ACKED) && phase != Settled(REJECTED)
    ensures phase == Settled(RECONCILED) ==> Exists(s, c)
  {
  }

  lemma FetchReturnsSafe(trust: Trust, limits: Limits, calls: Calls, s: System, c: string, reply: FetchReply)
    requires Safe(trust, s, calls) && OneOwner(calls.uses) && Fits(limits, calls)
    requires Enabled(s, FetchReturns(c, reply)) && Allowed(trust, s, FetchReturns(c, reply))
    ensures Safe(trust, Next(limits, s, FetchReturns(c, reply)), calls)
  {
    var task := s.manager.inFlight[c];
    var phase := AfterFetch(limits, task.readable, task.phase.submission, task.phase.attempt, reply);
    if phase.Sending? {
      ResendSafe(trust, limits, calls, s, c, reply);
    } else {
      var t := Next(limits, s, FetchReturns(c, reply));
      assert t == Ended(s, Message(c, task.message), phase, false).(manager :=
                    MoveTo(limits, s.manager, c, phase, task.message));
      FetchFacts(limits, trust, s, c, reply, phase);
      hide Next, MoveTo, Ended, Safe, Allowed, AfterFetch;
      MovedSafe(trust, limits, calls, s, t, c, phase, false);
    }
  }

  /** An event of the manager alone leaves the network as it was. */
  lemma QuietNetwork(s: System, t: System, c: string)
    requires t == s.(manager := t.manager)
    ensures NetworkChangesOnly(s, t, c) && (OneLive(s) ==> OneLive(t)) && UnrecordedUnder(t, c) == UnrecordedUnder(s, c)
    ensures (Live(t, c) <==> Live(s, c)) && (Exists(t, c) <==> Exists(s, c)) && (ExistsKept(t, c) <==> ExistsKept(s, c))
  {
  }

  /** The second submission, behind -2013. */
  lemma ResendSafe(trust: Trust, limits: Limits, calls: Calls, s: System, c: string, reply: FetchReply)
    requires Safe(trust, s, calls) && OneOwner(calls.uses) && Fits(limits, calls)
    requires Enabled(s, FetchReturns(c, reply)) && Allowed(trust, s, FetchReturns(c, reply))
    requires var t := s.manager.inFlight[c];
             AfterFetch(limits, t.readable, t.phase.submission, t.phase.attempt, reply).Sending?
    ensures Safe(trust, Next(limits, s, FetchReturns(c, reply)), calls)
  {
    var u := Use(s.manager.inFlight[c].intent, c);
    var t := Next(limits, s, FetchReturns(c, reply));
    assert reply == NotFound && !Alive(s, c);
    assert !Live(s, c);
    var sent := Send(Prove(s, c), c);
    assert t == sent.(manager := MoveTo(limits, s.manager, c, Sending(1), CountOf(s.sends, c)));
    assert u in calls.uses && Good(trust, s, u) && WaitsFor(s.manager, c);
    MoveToKeeps(limits, s.manager, calls, u, Sending(1), CountOf(s.sends, c));
    ProvedSend(s, c);
    NetworkOf(s, sent, t, c);
    OneLiveOfMessages(sent, t);
    hide MoveTo, Filed, Next, Send, Prove, Alive, Live, ManagerChangesOnly, OneLive, NetworkChangesOnly;
    hide UnrecordedUnder;
    ResentGood(trust, s, t, u);
    hide Good;
    Assemble(trust, s, t, calls, u);
  }

  lemma ProvedSend(s: System, c: string)
    requires OneLive(s) && !Live(s, c)
    ensures var sent := Send(Prove(s, c), c);
            && OneLive(sent) && NetworkChangesOnly(s, sent, c)
            && CountOf(sent.sends, c) == CountOf(s.sends, c) + 1
            && CountOf(sent.proofs, c) == CountOf(s.proofs, c) + 1
            && sent.unrecorded == s.unrecorded && sent.cancelled == s.cancelled
            && Message(c, CountOf(s.sends, c)) !in s.unrecorded
  {
    var proved := Prove(s, c);
    OneLiveOfMessages(s, proved);
    assert SameMessages(s, proved, c);
    SameMessagesSameFacts(s, proved, c);
    SendLive(proved, c);
    forall d | d != c ensures SameMessages(s, Send(proved, c), d) {
      assert SameMessages(proved, Send(proved, c), d);
    }
  }

  lemma ResentGood(trust: Trust, s: System, t: System, u: Use)
    requires Good(trust, s, u) && WaitsFor(s.manager, u.cid)
    requires t.manager.inFlight ==
             s.manager.inFlight[u.cid :=
               s.manager.inFlight[u.cid].(phase := Sending(1), message := CountOf(s.sends, u.cid))]
    requires t.manager.ledger == s.manager.ledger
    requires CountOf(t.sends, u.cid) == CountOf(s.sends, u.cid) + 1
    requires CountOf(t.proofs, u.cid) == CountOf(s.proofs, u.cid) + 1
    requires t.unrecorded == s.unrecorded && t.cancelled == s.cancelled
    requires Message(u.cid, CountOf(s.sends, u.cid)) !in s.unrecorded
    ensures Good(trust, t, u)
  {
    assert UnrecordedUnder(t, u.cid) == UnrecordedUnder(s, u.cid);
    hide Live, Exists, ExistsKept, UnrecordedUnder;
  }

  lemma ReleaseKeeps(m: Manager, calls: Calls, u: Use)
    requires Filed(m, calls) && u.cid in m.inFlight
    ensures Filed(Release(m, u.cid), calls) && ManagerChangesOnly(m, Release(m, u.cid), u)
  {
  }

  lemma FinishedGood(trust: Trust, s: System, t: System, u: Use)
    requires Good(trust, s, u) && u.cid in s.manager.inFlight && s.manager.inFlight[u.cid].phase.Settled?
    requires t == s.(manager := Release(s.manager, u.cid))
    ensures Good(trust, t, u)
  {
    QuietNetwork(s, t, u.cid);
    hide Live, Exists, ExistsKept, UnrecordedUnder, OneLive, NetworkChangesOnly;
  }

  lemma FinishSafe(trust: Trust, limits: Limits, calls: Calls, s: System, c: string)
    requires Safe(trust, s, calls) && OneOwner(calls.uses) && Enabled(s, Finish(c))
    ensures Safe(trust, Next(limits, s, Finish(c)), calls)
  {
    var u := Use(s.manager.inFlight[c].intent, c);
    var t := Next(limits, s, Finish(c));
    assert u in calls.uses && t == s.(manager := Release(s.manager, c));
    hide Next, Release, Good, Filed, OneLive;
    QuietNetwork(s, t, c);
    ReleaseKeeps(s.manager, calls, u);
    FinishedGood(trust, s, t, u);
    hide ManagerChangesOnly, NetworkChangesOnly, UnrecordedUnder, Live, Exists, ExistsKept;
    Assemble(trust, s, t, calls, u);
  }

  /** A reconciliation that found the order files it anew, under the id it was filed under. */
  lemma ReconcileSafe(trust: Trust, limits: Limits, calls: Calls, s: System, i: string, reply: FetchReply)
    requires Safe(trust, s, calls) && Fits(limits, calls)
    requires Enabled(s, Reconcile(i, reply)) && Allowed(trust, s, Reconcile(i, reply))
    ensures Safe(trust, Next(limits, s, Reconcile(i, reply)), calls)
  {
    if reply == Found {
      var entry := Entry(s.manager.ledger[i].cid, RECONCILED);
      var t := Next(limits, s, Reconcile(i, reply));
      assert t == s.(manager := Record(limits, s.manager, i, entry));
      RecordFits(limits, s.manager, calls, i, entry);
      hide Next, Record, Filed, OneLive, Good;
      QuietNetwork(s, t, "");
      forall u | u in calls.uses ensures Good(trust, t, u) {
        assert Good(trust, s, u);
        RefiledGood(trust, s, t, u, i);
      }
    }
  }

  lemma RefiledGood(trust: Trust, s: System, t: System, u: Use, i: string)
    requires Good(trust, s, u) && i in s.manager.ledger && Exists(s, s.manager.ledger[i].cid)
    requires t == s.(manager := t.manager) && t.manager.inFlight == s.manager.inFlight
    requires t.manager.ledger == s.manager.ledger[i := Entry(s.manager.ledger[i].cid, RECONCILED)]
    ensures Good(trust, t, u)
  {
    QuietNetwork(s, t, u.cid);
    hide Live, Exists, ExistsKept, UnrecordedUnder, OneLive, NetworkChangesOnly;
  }

  /** A cancellation files a record under its intent, whatever was filed under it before. */
  lemma CancelledSafe(trust: Trust, limits: Limits, calls: Calls, s: System, i: string, entry: Entry)
    requires Safe(trust, s, calls) && Fits(limits, calls) && i in calls.cancels && Enabled(s, Cancelled(i, entry))
    ensures Safe(trust, Next(limits, s, Cancelled(i, entry)), calls)
  {
    var t := Next(limits, s, Cancelled(i, entry));
    assert t == s.(manager := Record(limits, s.manager, i, entry), cancelled := s.cancelled + {i});
    RecordFits(limits, s.manager, calls, i, entry);
    OneLiveOfMessages(s, t);
    hide Next, Record, Filed, OneLive, Good;
    forall u | u in calls.uses ensures Good(trust, t, u) {
      assert Good(trust, s, u);
      CancelledGood(trust, s, t, u, i, entry);
    }
  }

  lemma CancelledGood(trust: Trust, s: System, t: System, u: Use, i: string, entry: Entry)
    requires Good(trust, s, u)
    requires t == s.(manager := t.manager, cancelled := s.cancelled + {i}) && t.manager.inFlight == s.manager.inFlight
    requires t.manager.ledger == s.manager.ledger[i := entry]
    ensures Good(trust, t, u)
  {
    assert SameMessages(s, t, u.cid);
    SameMessagesSameFacts(s, t, u.cid);
    hide Live, Exists, ExistsKept, Alive, UnrecordedUnder, SameMessages;
  }

  lemma NextSafe(trust: Trust, limits: Limits, calls: Calls, s: System, e: Event)
    requires Safe(trust, s, calls) && OneOwner(calls.uses) && Fits(limits, calls)
    requires Enabled(s, e) && Allowed(trust, s, e)
    requires (e.Place? ==> e.use in calls.uses) && (e.Cancelled? ==> e.intent in calls.cancels)
    ensures Safe(trust, Next(limits, s, e), calls)
  {
    hide Safe, Next;
    match e {
      case Place(u, readable) => PlaceSafe(trust, limits, calls, s, u, readable);
      case Accept(m) => AcceptSafe(trust, limits, calls, s, m);
      case Lose(m) => LoseSafe(trust, limits, calls, s, m);
      case CreateReturns(c, reply) => CreateReturnsSafe(trust, limits, calls, s, c, reply);
      case FetchReturns(c, reply) => FetchReturnsSafe(trust, limits, calls, s, c, reply);
      case Finish(c) => FinishSafe(trust, limits, calls, s, c);
      case Reconcile(i, reply) => ReconcileSafe(trust, limits, calls, s, i, reply);
      case Cancelled(i, entry) => CancelledSafe(trust, limits, calls, s, i, entry);
    }
  }

  // ---------------------------------------------------------------------------
  // Every run
  // ---------------------------------------------------------------------------

  lemma {:induction false} RunSafe(trust: Trust, limits: Limits, calls: Calls, events: seq<Event>)
    requires OneOwner(calls.uses) && Fits(limits, calls) && CallsOnly(events, calls)
    requires Run(trust, limits, events).Some?
    ensures Safe(trust, Run(trust, limits, events).value, calls)
  {
    if events == [] {
      assert forall u :: u in calls.uses ==> Good(trust, START, u);
    } else {
      var front, e := events[..|events| - 1], events[|events| - 1];
      RunSafe(trust, limits, calls, front);
      NextSafe(trust, limits, calls, Run(trust, limits, front).value, e);
    }
  }

  // ---------------------------------------------------------------------------
  // Ends without a record
  // ---------------------------------------------------------------------------

  /** Everything placed under an id could be read, and so could every answer to it. */
  predicate AllReadable(events: seq<Event>, c: string) {
    forall i :: 0 <= i < |events| ==>
      events[i] != CreateReturns(c, Unreadable) && (events[i].Place? && events[i].use.cid == c ==> events[i].readable)
  }

  /** Under the id a placement ends without a record, and not because nothing was sent. */
  predicate EndsUnrecorded(limits: Limits, s: System, e: Event, c: string)
    requires Enabled(s, e)
  {
    match e
    case CreateReturns(d, reply) =>
      var t := s.manager.inFlight[d];
      d == c && !reply.NotSent? && AfterCreate(limits, t.readable, t.phase.submission, reply) == Settled(FAILED)
    case FetchReturns(d, reply) =>
      var t := s.manager.inFlight[d];
      d == c && AfterFetch(limits, t.readable, t.phase.submission, t.phase.attempt, reply) == Settled(FAILED)
    case _ => false
  }

  /** A reply was taken in, and the placement ended without a record. */
  predicate LosesTrack(limits: Limits, s: System, e: Event)
    requires Enabled(s, e)
  {
    (e.CreateReturns? || e.FetchReturns?) && EndsUnrecorded(limits, s, e, e.cid)
  }

  lemma UnrecordedMoves(limits: Limits, s: System, e: Event)
    requires Enabled(s, e)
    ensures Next(limits, s, e).unrecorded ==
            if LosesTrack(limits, s, e) then s.unrecorded + {Message(e.cid, s.manager.inFlight[e.cid].message)}
            else s.unrecorded
  {
    hide MoveTo, Record, Release, Start, AfterCreate, AfterFetch;
  }

  lemma UnrecordedStep(limits: Limits, s: System, e: Event, c: string)
    requires Enabled(s, e)
    ensures UnrecordedUnder(Next(limits, s, e), c) != {} <==>
            UnrecordedUnder(s, c) != {} || EndsUnrecorded(limits, s, e, c)
    ensures |UnrecordedUnder(Next(limits, s, e), c)| <=
            |UnrecordedUnder(s, c)| + if EndsUnrecorded(limits, s, e, c) then 1 else 0
  {
    var t := Next(limits, s, e);
    UnrecordedMoves(limits, s, e);
    assert EndsUnrecorded(limits, s, e, c) <==> LosesTrack(limits, s, e) && e.cid == c by {
      hide Next, AfterCreate, AfterFetch;
    }
    hide Next, EndsUnrecorded, LosesTrack, Enabled;
    if LosesTrack(limits, s, e) && e.cid == c {
      assert UnrecordedUnder(t, c) == UnrecordedUnder(s, c) + {Message(c, s.manager.inFlight[c].message)};
    } else {
      assert UnrecordedUnder(t, c) == UnrecordedUnder(s, c);
    }
  }

  /** How many placements under an id ended without a record in the course of a run. */
  function UnrecordedEnds(trust: Trust, limits: Limits, events: seq<Event>, c: string): nat
    requires Run(trust, limits, events).Some?
  {
    if events == [] then 0
    else
      var front, e := events[..|events| - 1], events[|events| - 1];
      UnrecordedEnds(trust, limits, front, c)
      + if EndsUnrecorded(limits, Run(trust, limits, front).value, e, c) then 1 else 0
  }

  /** The submissions counted as unrecorded are no more than the placements that ended so, and none if none did. */
  lemma {:induction false} UnrecordedIff(trust: Trust, limits: Limits, events: seq<Event>, c: string)
    requires Run(trust, limits, events).Some?
    ensures UnrecordedUnder(Run(trust, limits, events).value, c) != {} <==> UnrecordedEnds(trust, limits, events, c) > 0
    ensures |UnrecordedUnder(Run(trust, limits, events).value, c)| <= UnrecordedEnds(trust, limits, events, c)
  {
    if events != [] {
      var front, e := events[..|events| - 1], events[|events| - 1];
      UnrecordedIff(trust, limits, front, c);
      hide Next, EndsUnrecorded, UnrecordedUnder, Allowed;
      UnrecordedStep(limits, Run(trust, limits, front).value, e, c);
    }
  }

  /** A placement ends without a record only if its request or an answer to it could not be read. */
  lemma {:induction false} ReadableIsRecorded(trust: Trust, limits: Limits, events: seq<Event>, c: string)
    requires Run(trust, limits, events).Some? && AllReadable(events, c)
    ensures var s := Run(trust, limits, events).value;
            UnrecordedUnder(s, c) == {} && (c in s.manager.inFlight ==> s.manager.inFlight[c].readable)
  {
    if events != [] {
      var front, e := events[..|events| - 1], events[|events| - 1];
      assert AllReadable(front, c);
      ReadableIsRecorded(trust, limits, front, c);
      var s := Run(trust, limits, front).value;
      assert e == events[|events| - 1];
      hide Run, AllReadable, Allowed;
      UnrecordedStep(limits, s, e, c);
      ReadableStep(limits, s, e, c);
    }
  }

  lemma ReadableStep(limits: Limits, s: System, e: Event, c: string)
    requires Enabled(s, e) && e != CreateReturns(c, Unreadable) && (e.Place? && e.use.cid == c ==> e.readable)
    requires c in s.manager.inFlight ==> s.manager.inFlight[c].readable
    ensures !EndsUnrecorded(limits, s, e, c)
    ensures var t := Next(limits, s, e).manager.inFlight; c in t ==> t[c].readable
  {
    hide Record, Ended;
    match e {
      case CreateReturns(d, reply) =>
        var t := s.manager.inFlight[d];
        var phase := AfterCreate(limits, t.readable, t.phase.submission, reply);
        MoveToKeepsReadable(limits, s.manager, d, phase, t.message, c);
      case FetchReturns(d, reply) =>
        var t := s.manager.inFlight[d];
        var phase := AfterFetch(limits, t.readable, t.phase.submission, t.phase.attempt, reply);
        MoveToKeepsReadable(limits, s.manager, d, phase, if phase.Sending? then CountOf(s.sends, d) else t.message, c);
      case Reconcile(i, reply) => RecordKeepsFlight(limits, s.manager, i, Entry(s.manager.ledger[i].cid, RECONCILED));
      case Cancelled(i, entry) => RecordKeepsFlight(limits, s.manager, i, entry);
      case _ =>
    }
    hide MoveTo;
  }

  lemma RecordKeepsFlight(limits: Limits, m: Manager, i: string, entry: Entry)
    ensures Record(limits, m, i, entry).inFlight == m.inFlight
  {
  }

  lemma MoveToKeepsReadable(limits: Limits, m: Manager, d: string, phase: Phase, message: nat, c: string)
    requires d in m.inFlight
    ensures var n := MoveTo(limits, m, d, phase, message);
            && n.inFlight.Keys == m.inFlight.Keys
            && (c in m.inFlight ==> n.inFlight[c].readable == m.inFlight[c].readable)
  {
    var moved := m.(inFlight := m.inFlight[d := m.inFlight[d].(phase := phase, message := message)]);
    assert moved.inFlight.Keys == m.inFlight.Keys;
  }

  /** Where requests and answers are trusted to be readable, they are. */
  lemma {:induction false} TrustedIsReadable(trust: Trust, limits: Limits, events: seq<Event>, c: string)
    requires Run(trust, limits, events).Some? && trust.answersAreReadable && trust.requestsAreReadable
    ensures AllReadable(events, c)
  {
    if events != [] {
      TrustedIsReadable(trust, limits, events[..|events| - 1], c);
      hide Next, Enabled;
    }
  }

  // ---------------------------------------------------------------------------
  // What follows
  // ---------------------------------------------------------------------------

  /** How many orders exist under an id. */
  ghost function OrdersUnder(s: System, c: string): set<Message> {
    set m | m in s.accepted && m.cid == c
  }

  lemma OrdersBound(s: System, c: string)
    requires OneLive(s)
    ensures var read := OrdersUnder(s, c) - UnrecordedUnder(s, c);
            && |read| <= 1 && (ExistsKept(s, c) ==> |read| == 1) && (!Live(s, c) ==> read == {})
            && |OrdersUnder(s, c)| <= 1 + |UnrecordedUnder(s, c)|
            && (Exists(s, c) ==> OrdersUnder(s, c) != {})
  {
    var orders, unread := OrdersUnder(s, c), UnrecordedUnder(s, c);
    var read := orders - unread;
    if m :| m in read {
      assert m in s.transit + s.accepted;
      forall x | x in read ensures x == m {
        assert x in s.transit + s.accepted;
      }
      assert read == {m};
    }
    if ExistsKept(s, c) {
      var m :| m in s.accepted && m !in s.unrecorded && m.cid == c;
      assert m in read;
    }
    if Exists(s, c) {
      var m :| m in s.accepted && m.cid == c;
      assert m in orders;
    }
    assert orders <= read + unread;
    SubsetSize(orders, read + unread);
    assert |read + unread| <= |read| + |unread|;
  }

  /**
   Whatever the interleaving, each client order id has at most one order, and one more for every
   placement under it that ended without a record. Where everything could be read, it has at most one.
   */
  lemma EveryRunIsAtMostOnce(trust: Trust, limits: Limits, calls: Calls, events: seq<Event>)
    requires OneOwner(calls.uses) && Fits(limits, calls) && CallsOnly(events, calls)
    requires Run(trust, limits, events).Some?
    ensures var s := Run(trust, limits, events).value;
            && (forall c :: |OrdersUnder(s, c)| <= 1 + UnrecordedEnds(trust, limits, events, c))
            && (forall c :: AllReadable(events, c) ==> |OrdersUnder(s, c)| <= 1)
            && (trust.answersAreReadable && trust.requestsAreReadable ==> AtMostOnce(s))
  {
    RunSafe(trust, limits, calls, events);
    var s := Run(trust, limits, events).value;
    forall c ensures |OrdersUnder(s, c)| <= 1 + UnrecordedEnds(trust, limits, events, c)
      ensures AllReadable(events, c) ==> |OrdersUnder(s, c)| <= 1
    {
      OrdersBound(s, c);
      UnrecordedIff(trust, limits, events, c);
      if AllReadable(events, c) {
        ReadableIsRecorded(trust, limits, events, c);
      }
    }
    if trust.answersAreReadable && trust.requestsAreReadable {
      if m :| m in s.unrecorded {
        assert UnrecordedUnder(s, m.cid) != {} by {
          assert m in UnrecordedUnder(s, m.cid);
        }
        TrustedIsReadable(trust, limits, events, m.cid);
        ReadableIsRecorded(trust, limits, events, m.cid);
        assert false;
      }
      OneLiveIsAtMostOnce(s);
    }
  }

  /** What a recorded outcome says about the orders under its id, unrecorded submissions aside. */
  ghost predicate Truth(trust: Trust, s: System, c: string, verdict: Verdict) {
    var orders, unrecorded := OrdersUnder(s, c), UnrecordedUnder(s, c);
    match verdict
    case ACKED => |orders - unrecorded| == 1
    case RECONCILED => orders != {} && |orders - unrecorded| <= 1
    case REJECTED => trust.apiErrorsAreFinal ==> orders <= unrecorded && !Live(s, c)
    case UNKNOWN => |orders - unrecorded| <= 1
    case FAILED => false
  }

  /**
   Recorded outcomes of placements are true: acknowledged or reconciled means exactly one order
   exists, rejected means none exists or ever will from what was sent, unknown means at most one.
   Orders of placements that ended without a record come on top; where everything under the id
   could be read, the outcomes are exact.
   */
  lemma OutcomesAreTrue(trust: Trust, limits: Limits, calls: Calls, events: seq<Event>, i: string)
    requires OneOwner(calls.uses) && Fits(limits, calls) && CallsOnly(events, calls) && i !in calls.cancels
    requires Run(trust, limits, events).Some? && i in Run(trust, limits, events).value.manager.ledger
    ensures var s := Run(trust, limits, events).value;
            var c, verdict := s.manager.ledger[i].cid, s.manager.ledger[i].verdict;
            var orders := OrdersUnder(s, c);
            && Use(i, c) in calls.uses
            && Truth(trust, s, c, verdict)
            && (AllReadable(events, c) ==>
                  match verdict
                  case ACKED => |orders| == 1
                  case RECONCILED => |orders| == 1
                  case REJECTED => trust.apiErrorsAreFinal ==> orders == {} && !Alive(s, c)
                  case UNKNOWN => |orders| <= 1
                  case FAILED => false)
  {
    RunSafe(trust, limits, calls, events);
    var s := Run(trust, limits, events).value;
    var c := s.manager.ledger[i].cid;
    if AllReadable(events, c) {
      ReadableIsRecorded(trust, limits, events, c);
    }
    hide Run, AllReadable;
    var u := Use(i, c);
    assert u in calls.uses && Good(trust, s, u) && PlacedUnder(s, u);
    OrdersBound(s, c);
    assert TrueOutcome(trust, s, u);
    if UnrecordedUnder(s, c) == {} {
      assert forall m :: m in s.transit + s.accepted && m.cid == c ==> m !in s.unrecorded by {
        assert forall m :: m in s.unrecorded && m.cid == c ==> m in UnrecordedUnder(s, c);
      }
      assert Alive(s, c) ==> Live(s, c);
      assert OrdersUnder(s, c) - UnrecordedUnder(s, c) == OrdersUnder(s, c);
    }
    hide Live, Alive, Exists, ExistsKept, OneLive, Safe, Good;
  }

  /**
   Nothing is sent again on a guess: every submission of an id but the first came after its own
   proof that nothing had been created, a -2013 or an error raised before sending, or after a
   placement that had ended without a record.
   */
  lemma SendsAreJustified(trust: Trust, limits: Limits, calls: Calls, events: seq<Event>, u: Use)
    requires OneOwner(calls.uses) && Fits(limits, calls) && CallsOnly(events, calls)
    requires Run(trust, limits, events).Some? && u in calls.uses
    ensures var s := Run(trust, limits, events).value;
            && CountOf(s.sends, u.cid) <=
               CountOf(s.proofs, u.cid) + UnrecordedEnds(trust, limits, events, u.cid) + 1
            && (AllReadable(events, u.cid) ==> CountOf(s.sends, u.cid) <= CountOf(s.proofs, u.cid) + 1)
  {
    RunSafe(trust, limits, calls, events);
    UnrecordedIff(trust, limits, events, u.cid);
    if AllReadable(events, u.cid) {
      ReadableIsRecorded(trust, limits, events, u.cid);
    }
    assert Good(trust, Run(trust, limits, events).value, u);
  }
}
