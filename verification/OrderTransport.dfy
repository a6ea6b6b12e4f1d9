/**
 The retry rule under the placement protocol: how an awaited order submission ends when it goes
 through the HTTP client, and which of the protocol's trust assumptions the client can vouch for
 (src/client/HttpClient.ts, src/resources/FuturesTrading.ts, src/resources/SpotTrading.ts).
 */
module OrderTransport {
  import opened HttpRetry
  import Protocol = Placement

  /** What the manager gets to see of a submission: the answer is parsed behind the client. */
  function ReplyOf(outcome: Outcome, parses: bool): Protocol.CreateReply {
    match outcome
    case Data => if parses then Protocol.Created else Protocol.Unreadable
    case RateLimited(_) => Protocol.ApiError
    case ApiError(_) => Protocol.ApiError
    case NetworkFailure => Protocol.NoReply
  }

  /** A submission in flight that has come back from the network, its order accepted if the server processed it. */
  ghost predicate CameBack(cfg: Config, r: Request, net: Network, s: Protocol.System, cid: string) {
    && cid in s.manager.inFlight && s.manager.inFlight[cid].phase.Sending?
    && var m := Protocol.Message(cid, s.manager.inFlight[cid].message);
       m !in s.transit && (m in s.accepted <==> CountProcessed(net, Last(cfg, r, net, 0) + 1) > 0)
  }

  /**
   Under the strict policy the client vouches for its answers, and for nothing else: the protocol
   may trust the reply exactly when an API error, if it is to be final, was no false rejection, and
   an answer, if answers are to be readable, parses.
   */
  lemma SubmissionIsAllowedIff(
    cfg: Config, r: Request, net: Network, parses: bool, trust: Protocol.Trust, s: Protocol.System, cid: string)
    requires cfg.policy == STRICT && OffTheList(cfg, r) && Truthful(net) && CameBack(cfg, r, net, s, cid)
    ensures var n := Last(cfg, r, net, 0);
            var outcome := Classify(net(n));
            Protocol.Allowed(trust, s, Protocol.CreateReturns(cid, ReplyOf(outcome, parses))) <==>
            && (trust.apiErrorsAreFinal ==> !(outcome.ApiError? && CountProcessed(net, n + 1) > 0))
            && (trust.answersAreReadable ==> !(outcome.Data? && !parses))
  {
    ProcessedAtMostOnce(cfg, r, net);
    assert Classify(net(Last(cfg, r, net, 0))).RateLimited? <==> TurnedAway(net(Last(cfg, r, net, 0)));
    hide CountProcessed, OffTheList, Last;
  }

  /**
   From what the client sees: a reply can be trusted, whatever happened behind it, exactly when it
   is no API error or API errors need not be final, and it is no answer that does not parse or
   answers need not be readable.
   */
  lemma SubmissionIsSafeIff(cfg: Config, r: Request, net: Network, parses: bool, trust: Protocol.Trust)
    requires cfg.policy == STRICT && OffTheList(cfg, r) && Truthful(net)
    ensures var outcome := Classify(net(Last(cfg, r, net, 0)));
            (forall other: Network, s, cid ::
               SeenAlike(net, other) && Truthful(other) && CameBack(cfg, r, other, s, cid) ==>
                 Protocol.Allowed(trust, s, Protocol.CreateReturns(cid, ReplyOf(outcome, parses)))) <==>
            && (trust.apiErrorsAreFinal ==> !outcome.ApiError?)
            && (trust.answersAreReadable ==> !(outcome.Data? && !parses))
  {
    var n := Last(cfg, r, net, 0);
    var outcome := Classify(net(n));
    forall other: Network, s, cid | SeenAlike(net, other) && Truthful(other) && CameBack(cfg, r, other, s, cid)
      ensures Protocol.Allowed(trust, s, Protocol.CreateReturns(cid, ReplyOf(outcome, parses))) <==>
              && (trust.apiErrorsAreFinal ==> !(outcome.ApiError? && CountProcessed(other, n + 1) > 0))
              && (trust.answersAreReadable ==> !(outcome.Data? && !parses))
    {
      SameAttempts(cfg, r, net, other, 0);
      assert LooksAlike(net(n), other(n));
      SubmissionIsAllowedIff(cfg, r, other, parses, trust, s, cid);
    }
    OutcomeTells(cfg, r, net);
    if trust.apiErrorsAreFinal && outcome.ApiError? {
      var other: Network :| SeenAlike(net, other) && Truthful(other) && CountProcessed(other, n + 1) > 0;
      var s := Returning(true);
      SameAttempts(cfg, r, net, other, 0);
      assert CameBack(cfg, r, other, s, "");
    } else if trust.answersAreReadable && outcome.Data? && !parses {
      OutcomeTells(cfg, r, net);
      var s := Returning(CountProcessed(net, n + 1) > 0);
      assert forall k: nat :: LooksAlike(net(k), net(k));
      assert CameBack(cfg, r, net, s, "");
    }
  }

  /**
   What the manager does about an outcome: an answer that parses is recorded as acknowledged, an API
   error and a rate limit as rejected, a failure of the network has the order looked up, and an answer
   that does not parse leaves no record.
   */
  lemma OutcomeSettles(limits: Protocol.Limits, outcome: Outcome, parses: bool, submission: nat)
    requires limits.maxAttempts >= 1
    ensures var phase := Protocol.AfterCreate(limits, true, submission, ReplyOf(outcome, parses));
            && (phase == Protocol.Settled(Protocol.ACKED) <==> outcome.Data? && parses)
            && (phase == Protocol.Settled(Protocol.REJECTED) <==> outcome.ApiError? || outcome.RateLimited?)
            && (phase == Protocol.Polling(submission, 1) <==> outcome.NetworkFailure?)
            && (phase == Protocol.Settled(Protocol.FAILED) <==> outcome.Data? && !parses)
  {
  }

  /** A state with one submission in flight that has come back. */
  function Returning(accepted: bool): Protocol.System {
    Protocol.System(
      Protocol.Manager(map[], [], map[], map["" := Protocol.Task("", true, Protocol.Sending(0), 0)]),
      map["" := 1], map[], {}, if accepted then {Protocol.Message("", 0)} else {}, {}, {})
  }
}
