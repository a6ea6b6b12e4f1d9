/**
 The retry rule of the HTTP client (src/client/HttpClient.ts). The network is a script: what
 happens to the k-th attempt, including the fact, hidden from the client, whether the server
 processed the request.
 */
module HttpRetry {
  import opened Text
  import opened Wrappers

  datatype HttpMethod = GET | POST | PUT | DELETE

  datatype RetryPolicy = STRICT | LEGACY

  datatype ErrorBody = ErrorBody(code: Option<int>)

  /** What becomes of one attempt. */
  datatype Attempt =
    | Success
    | Unexpected(done: bool)
    | Failure(status: Option<int>, body: Option<ErrorBody>, done: bool)
  {
    /** Whether the server processed the request. */
    predicate Processed() {
      Success? || done
    }
  }

  /** What the caller sees: data, or an error of one of the client's classes. */
  datatype Outcome =
    | Data
    | RateLimited(code: int)
    | ApiError(code: int)
    | NetworkFailure

  const RETRYABLE_STATUS: set<int> := {429, 418, 500, 502, 503, 504}
  const UNPROCESSED_STATUS: set<int> := {429, 418}
  const IDEMPOTENT_POST_PREFIXES: seq<string> :=
    ["/fapi/v1/order/test", "/api/v3/order/test", "/sapi/v1/capital/deposit/hisrec"]

  type Network = nat -> Attempt

  datatype Config = Config(maxRetries: int, policy: RetryPolicy, idempotentPaths: seq<string>)

  datatype Request = Request(verb: HttpMethod, path: string)

  /** Transient failures: a retryable status, or no response. */
  predicate ShouldRetry(a: Attempt)
    requires a.Failure?
  {
    a.status.Some? ==> a.status.value in RETRYABLE_STATUS
  }

  predicate IsRetrySafe(cfg: Config, r: Request) {
    || r.verb == GET
    || r.verb == DELETE
    || exists i :: 0 <= i < |cfg.idempotentPaths| && StartsWith(ToLower(r.path), ToLower(cfg.idempotentPaths[i]))
  }

  predicate CanRetry(cfg: Config, r: Request, a: Attempt)
    requires a.Failure?
  {
    || cfg.policy == LEGACY
    || (a.status.Some? && a.status.value in UNPROCESSED_STATUS)
    || IsRetrySafe(cfg, r)
  }

  /** The request goes out again after this attempt. */
  predicate Retries(cfg: Config, r: Request, a: Attempt, attempt: int) {
    a.Failure? && attempt < cfg.maxRetries && ShouldRetry(a) && CanRetry(cfg, r, a)
  }

  /** The error class an attempt surfaces as. */
  function Classify(a: Attempt): Outcome {
    match a
    case Success => Data
    case Unexpected(_) => NetworkFailure
    case Failure(status, body, _) =>
      var code := if body.Some? && body.value.code.Some? then body.value.code.value else -1;
      if status.Some? && (status.value == 429 || status.value == 418) then RateLimited(code)
      else if status.Some? && status.value != 0 && body.Some? then ApiError(code)
      else NetworkFailure
  }

  /** The number of the last attempt made. */
  function Last(cfg: Config, r: Request, net: Network, attempt: nat): (n: nat)
    ensures n >= attempt
    decreases cfg.maxRetries - attempt
  {
    if Retries(cfg, r, net(attempt), attempt) then Last(cfg, r, net, attempt + 1) else attempt
  }

  /** The settings of `configureRetry`; absent ones are left alone. */
  datatype RetryOptions = RetryOptions(
    maxRetries: Option<int>,
    baseDelayMs: Option<real>,
    maxDelayMs: Option<real>,
    factor: Option<real>,
    policy: Option<RetryPolicy>)

  function OrElse<T>(a: Option<T>, b: Option<T>): Option<T> {
    if a.Some? then a else b
  }

  /** Settings with those given put in place. */
  function Overridden(settings: RetryOptions, options: RetryOptions): RetryOptions {
    RetryOptions(
      OrElse(options.maxRetries, settings.maxRetries),
      OrElse(options.baseDelayMs, settings.baseDelayMs),
      OrElse(options.maxDelayMs, settings.maxDelayMs),
      OrElse(options.factor, settings.factor),
      OrElse(options.policy, settings.policy))
  }

  class HttpClient {
    var maxRetries: int
    var retryBaseDelayMs: real
    var retryMaxDelayMs: real
    var retryFactor: real
    var retryPolicy: RetryPolicy
    const idempotentPaths: seq<string>
    var pendingRequests: nat

    function Settings(): Config
      reads this
    {
      Config(maxRetries, retryPolicy, idempotentPaths)
    }

    /** The current settings, all of them present. */
    function GetRetry(): RetryOptions
      reads this
    {
      RetryOptions(Some(maxRetries), Some(retryBaseDelayMs), Some(retryMaxDelayMs), Some(retryFactor),
        Some(retryPolicy))
    }

    constructor (
      maxRetries: int, baseDelayMs: real, maxDelayMs: real, factor: real, retryPolicy: RetryPolicy,
        extraPaths: seq<string>)
      ensures Settings() ==
              Config(maxRetries, retryPolicy,
                     ["/fapi/v1/order/test", "/api/v3/order/test", "/sapi/v1/capital/deposit/hisrec"] + extraPaths)
      ensures GetRetry() ==
              RetryOptions(Some(maxRetries), Some(baseDelayMs), Some(maxDelayMs), Some(factor), Some(retryPolicy))
      ensures pendingRequests == 0
    {
      this.maxRetries := maxRetries;
      retryBaseDelayMs, retryMaxDelayMs, retryFactor := baseDelayMs, maxDelayMs, factor;
      this.retryPolicy := retryPolicy;
      idempotentPaths := IDEMPOTENT_POST_PREFIXES + extraPaths;
      pendingRequests := 0;
    }

    method ConfigureRetry(options: RetryOptions)
      modifies this`maxRetries, this`retryBaseDelayMs, this`retryMaxDelayMs, this`retryFactor, this`retryPolicy
      ensures GetRetry() == Overridden(old(GetRetry()), options)
      ensures Settings().idempotentPaths == old(Settings()).idempotentPaths
    {
      if options.maxRetries.Some? {
        maxRetries := options.maxRetries.value;
      }
      if options.baseDelayMs.Some? {
        retryBaseDelayMs := options.baseDelayMs.value;
      }
      if options.maxDelayMs.Some? {
        retryMaxDelayMs := options.maxDelayMs.value;
      }
      if options.factor.Some? {
        retryFactor := options.factor.value;
      }
      if options.policy.Some? {
        retryPolicy := options.policy.value;
      }
    }

    /** The request count is up by one per attempt on the way in and back down on the way out. */
    method RequestWithRetry(r: Request, net: Network, attempt: nat) returns (outcome: Outcome, attempts: nat)
      modifies this`pendingRequests
      ensures pendingRequests == old(pendingRequests)
      ensures attempts == Last(Settings(), r, net, attempt) + 1 && outcome == Classify(net(attempts - 1))
      decreases maxRetries - attempt
    {
      pendingRequests := pendingRequests + 1;
      var a := net(attempt);
      match a {
        case Success =>
          outcome, attempts := Data, attempt + 1;
        case Unexpected(_) =>
          outcome, attempts := NetworkFailure, attempt + 1;
        case Failure(status, body, _) =>
          if attempt < maxRetries && ShouldRetry(a) && CanRetry(Settings(), r, a) {
            outcome, attempts := RequestWithRetry(r, net, attempt + 1);
          } else {
            attempts := attempt + 1;
            var code := if body.Some? && body.value.code.Some? then body.value.code.value else -1;
            if status.Some? && (status.value == 429 || status.value == 418) {
              outcome := RateLimited(code);
            } else if status.Some? && status.value != 0 && body.Some? {
              outcome := ApiError(code);
            } else {
              outcome := NetworkFailure;
            }
          }
      }
      pendingRequests := pendingRequests - 1;
    }
  }

  /** Of one setting: the value given, or the one there was. */
  predicate Keeps<T(==)>(after: Option<T>, given: Option<T>, before: Option<T>) {
    (given.Some? ==> after == given) && (given.None? ==> after == before)
  }

  lemma OnlyGivenChange(settings: RetryOptions, options: RetryOptions)
    ensures var after := Overridden(settings, options);
            && Keeps(after.maxRetries, options.maxRetries, settings.maxRetries)
            && Keeps(after.baseDelayMs, options.baseDelayMs, settings.baseDelayMs)
            && Keeps(after.maxDelayMs, options.maxDelayMs, settings.maxDelayMs)
            && Keeps(after.factor, options.factor, settings.factor)
            && Keeps(after.policy, options.policy, settings.policy)
  {
  }

  // ---------------------------------------------------------------------------
  // When a request is sent again
  // ---------------------------------------------------------------------------

  /** A POST or PUT whose path, in lower case, starts with none of the configured prefixes, in lower case. */
  predicate OffTheList(cfg: Config, r: Request) {
    && (r.verb == POST || r.verb == PUT)
    && forall i :: 0 <= i < |cfg.idempotentPaths| ==> !(ToLower(cfg.idempotentPaths[i]) <= ToLower(r.path))
  }

  lemma OffTheListIff(cfg: Config, r: Request)
    ensures OffTheList(cfg, r) <==> !IsRetrySafe(cfg, r)
  {
  }

  /** 429 and 418 answer requests that were turned away before processing. */
  predicate TurnedAway(a: Attempt) {
    a.Failure? && (a.status == Some(429) || a.status == Some(418))
  }

  /** No response at all, or a status that may not last. */
  predicate Transient(a: Attempt) {
    a.Failure? && match a.status
                  case None => true
                  case Some(status) =>
                    || status == 429 || status == 418
                    || status == 500 || status == 502 || status == 503 || status == 504
  }

  /**
   A request goes out again exactly when attempts are left, the failure is transient, and it was
   turned away, or the policy is legacy, or it is no POST or PUT off the list.
   */
  lemma SentAgainIff(cfg: Config, r: Request, net: Network, attempt: nat)
    ensures Last(cfg, r, net, attempt) > attempt <==>
            && attempt < cfg.maxRetries && Transient(net(attempt))
            && (TurnedAway(net(attempt)) || cfg.policy == LEGACY || !OffTheList(cfg, r))
  {
    OffTheListIff(cfg, r);
    hide IsRetrySafe, OffTheList;
  }

  /**
   So under the strict policy a GET, a DELETE or a listed path is sent again after any transient
   failure, and everything else after 429 and 418 alone; nothing is sent again after another status.
   */
  lemma StrictResends(cfg: Config, r: Request, net: Network, attempt: nat)
    requires cfg.policy == STRICT && attempt < cfg.maxRetries
    ensures (|| r.verb == GET || r.verb == DELETE
             || exists i :: 0 <= i < |cfg.idempotentPaths| && ToLower(cfg.idempotentPaths[i]) <= ToLower(r.path)) ==>
              (Last(cfg, r, net, attempt) > attempt <==> Transient(net(attempt)))
    ensures OffTheList(cfg, r) ==> (Last(cfg, r, net, attempt) > attempt <==> TurnedAway(net(attempt)))
    ensures !Transient(net(attempt)) ==> Last(cfg, r, net, attempt) == attempt
  {
    SentAgainIff(cfg, r, net, attempt);
  }

  /** The error a failed request surfaces as: by status and body, with the body's code or -1. */
  lemma SurfacesAs(a: Attempt)
    requires a.Failure?
    ensures var outcome := Classify(a);
            var code := if a.body.Some? && a.body.value.code.Some? then a.body.value.code.value else -1;
            && (outcome == RateLimited(code) <==> a.status == Some(429) || a.status == Some(418))
            && (outcome == ApiError(code) <==>
                  && a.status.Some? && a.status != Some(429) && a.status != Some(418) && a.status != Some(0)
                  && a.body.Some?)
            && (outcome == NetworkFailure <==>
                  || a.status.None? || a.status == Some(0)
                  || (a.body.None? && a.status != Some(429) && a.status != Some(418)))
  {
  }

  // ---------------------------------------------------------------------------
  // At most once
  // ---------------------------------------------------------------------------

  ghost predicate Truthful(net: Network) {
    forall k: nat :: TurnedAway(net(k)) ==> !net(k).Processed()
  }

  /** How many of the first n attempts the server processed. */
  function CountProcessed(net: Network, n: nat): nat {
    if n == 0 then 0 else CountProcessed(net, n - 1) + if net(n - 1).Processed() then 1 else 0
  }

  /** There are never more than maxRetries + 1 attempts. */
  lemma {:induction false} AttemptsBound(cfg: Config, r: Request, net: Network, attempt: nat)
    ensures Last(cfg, r, net, attempt) + 1 <= if cfg.maxRetries > attempt then cfg.maxRetries + 1 else attempt + 1
    decreases cfg.maxRetries - attempt
  {
    if Retries(cfg, r, net(attempt), attempt) {
      AttemptsBound(cfg, r, net, attempt + 1);
    }
  }

  /** The last attempt is the first that calls for no other. */
  lemma {:induction false} LastIff(cfg: Config, r: Request, net: Network, attempt: nat, n: nat)
    requires attempt <= n
    ensures Last(cfg, r, net, attempt) == n <==>
            !Retries(cfg, r, net(n), n) && forall k: nat :: attempt <= k < n ==> Retries(cfg, r, net(k), k)
    decreases n - attempt
  {
    hide Retries;
    if Retries(cfg, r, net(attempt), attempt) && attempt < n {
      LastIff(cfg, r, net, attempt + 1, n);
    }
  }

  /** A request that may be repeated is given up early only when repeating it would not help. */
  lemma GivesUpOnlyIfFinal(cfg: Config, r: Request, net: Network)
    requires cfg.policy == LEGACY || !OffTheList(cfg, r)
    ensures var n := Last(cfg, r, net, 0);
            n < cfg.maxRetries ==> !Transient(net(n))
    ensures forall k: nat :: k < Last(cfg, r, net, 0) ==> Transient(net(k)) && k < cfg.maxRetries
  {
    LastIff(cfg, r, net, 0, Last(cfg, r, net, 0));
    OffTheListIff(cfg, r);
    hide IsRetrySafe, OffTheList;
  }

  /** Under the strict policy a POST or PUT off the list is sent again only after being turned away. */
  lemma {:induction false} ResentOnlyIfTurnedAway(cfg: Config, r: Request, net: Network, attempt: nat, k: nat)
    requires cfg.policy == STRICT && OffTheList(cfg, r)
    requires attempt <= k < Last(cfg, r, net, attempt)
    ensures TurnedAway(net(k))
    decreases cfg.maxRetries - attempt
  {
    SentAgainIff(cfg, r, net, attempt);
    hide OffTheList;
    if k > attempt {
      ResentOnlyIfTurnedAway(cfg, r, net, attempt + 1, k);
    }
  }

  lemma {:induction false} CountOfUnprocessed(net: Network, n: nat)
    requires forall k: nat :: k < n ==> !net(k).Processed()
    ensures CountProcessed(net, n) == 0
  {
    if n > 0 {
      CountOfUnprocessed(net, n - 1);
    }
  }

  /** So at most one attempt was processed, and if one was, it is the last, which the caller heard of. */
  lemma ProcessedAtMostOnce(cfg: Config, r: Request, net: Network)
    requires cfg.policy == STRICT && OffTheList(cfg, r) && Truthful(net)
    ensures var n := Last(cfg, r, net, 0);
            && CountProcessed(net, n) == 0
            && CountProcessed(net, n + 1) == (if net(n).Processed() then 1 else 0)
  {
    var n := Last(cfg, r, net, 0);
    forall k: nat | k < n ensures !net(k).Processed() {
      ResentOnlyIfTurnedAway(cfg, r, net, 0, k);
    }
    CountOfUnprocessed(net, n);
  }

  /** A server that processes the request and then fails to answer, every time. */
  function LostReplies(): Network {
    (k: nat) => Failure(None, None, true)
  }

  lemma {:induction false} LostRepliesRunOn(cfg: Config, r: Request, attempt: nat)
    requires cfg.policy == LEGACY || !OffTheList(cfg, r)
    requires attempt <= cfg.maxRetries
    ensures Last(cfg, r, LostReplies(), attempt) == cfg.maxRetries
    decreases cfg.maxRetries - attempt
  {
    SentAgainIff(cfg, r, LostReplies(), attempt);
    hide OffTheList;
    if attempt < cfg.maxRetries {
      LostRepliesRunOn(cfg, r, attempt + 1);
    }
  }

  lemma {:induction false} LostRepliesCount(n: nat)
    ensures CountProcessed(LostReplies(), n) == n
  {
    if n > 0 {
      LostRepliesCount(n - 1);
    }
  }

  /**
   A request can be processed more than once exactly when retries are allowed at all and either
   the policy is legacy or the request is no POST or PUT off the list.
   */
  lemma ProcessedTwiceIff(cfg: Config, r: Request)
    ensures (exists net: Network :: Truthful(net) && CountProcessed(net, Last(cfg, r, net, 0) + 1) >= 2) <==>
            cfg.maxRetries >= 1 && (cfg.policy == LEGACY || !OffTheList(cfg, r))
  {
    if cfg.maxRetries >= 1 && (cfg.policy == LEGACY || !OffTheList(cfg, r)) {
      LostRepliesRunOn(cfg, r, 0);
      LostRepliesCount(cfg.maxRetries + 1);
      assert Truthful(LostReplies());
    } else {
      forall net: Network | Truthful(net) ensures CountProcessed(net, Last(cfg, r, net, 0) + 1) <= 1 {
        if cfg.maxRetries < 1 {
          assert Last(cfg, r, net, 0) == 0;
          assert CountProcessed(net, 0) == 0;
        } else {
          ProcessedAtMostOnce(cfg, r, net);
        }
      }
    }
  }

  // ---------------------------------------------------------------------------
  // What the error says
  // ---------------------------------------------------------------------------

  /** An error of the Binance API classes, which a caller takes for a definitive rejection. */
  predicate LooksRejected(o: Outcome) {
    o.ApiError? || o.RateLimited?
  }

  /** Two attempts that the client cannot tell apart: it does not see whether a failed one was processed. */
  predicate LooksAlike(a: Attempt, b: Attempt) {
    match a
    case Success => b.Success?
    case Unexpected(_) => b.Unexpected?
    case Failure(status, body, _) => b.Failure? && b.status == status && b.body == body
  }

  ghost predicate SeenAlike(net: Network, other: Network) {
    forall k: nat :: LooksAlike(net(k), other(k))
  }

  /** The same attempt, processed or not. */
  function Marked(a: Attempt, done: bool): Attempt {
    match a
    case Success => Success
    case Unexpected(_) => Unexpected(done)
    case Failure(status, body, _) => Failure(status, body, done)
  }

  function MarkedAt(net: Network, n: nat, done: bool): Network {
    (k: nat) => if k == n then Marked(net(k), done) else net(k)
  }

  lemma {:induction false} SameAttempts(cfg: Config, r: Request, net: Network, other: Network, attempt: nat)
    requires SeenAlike(net, other)
    ensures Last(cfg, r, net, attempt) == Last(cfg, r, other, attempt)
    decreases cfg.maxRetries - attempt
  {
    assert LooksAlike(net(attempt), other(attempt));
    if Retries(cfg, r, net(attempt), attempt) {
      SameAttempts(cfg, r, net, other, attempt + 1);
    }
  }

  /** Some truthful network that looks the same processed the request, or did not. */
  ghost predicate MayBeProcessed(cfg: Config, r: Request, net: Network, processed: bool) {
    exists other: Network ::
      SeenAlike(net, other) && Truthful(other) && (CountProcessed(other, Last(cfg, r, net, 0) + 1) > 0 <==> processed)
  }

  lemma MarkedIsWitness(cfg: Config, r: Request, net: Network, done: bool)
    requires cfg.policy == STRICT && OffTheList(cfg, r) && Truthful(net)
    requires var last := net(Last(cfg, r, net, 0)); if done then !TurnedAway(last) else !last.Success?
    ensures MayBeProcessed(cfg, r, net, done)
  {
    var n := Last(cfg, r, net, 0);
    var other := MarkedAt(net, n, done);
    assert SeenAlike(net, other);
    assert Truthful(other);
    SameAttempts(cfg, r, net, other, 0);
    ProcessedAtMostOnce(cfg, r, other);
    assert other(n).Processed() <==> done;
  }

  /**
   What the outcome of an unsafe request under the strict policy tells its caller. Only data says
   that the request was processed; only 429 and 418 say that it was not; anything else leaves it open.
   */
  lemma OutcomeTells(cfg: Config, r: Request, net: Network)
    requires cfg.policy == STRICT && OffTheList(cfg, r) && Truthful(net)
    ensures var outcome := Classify(net(Last(cfg, r, net, 0)));
            && (MayBeProcessed(cfg, r, net, true) <==> !outcome.RateLimited?)
            && (MayBeProcessed(cfg, r, net, false) <==> !outcome.Data?)
  {
    var n := Last(cfg, r, net, 0);
    assert TurnedAway(net(n)) <==> Classify(net(n)).RateLimited?;
    if TurnedAway(net(n)) {
      forall other: Network | SeenAlike(net, other) && Truthful(other) ensures CountProcessed(other, n + 1) == 0 {
        SameAttempts(cfg, r, net, other, 0);
        ProcessedAtMostOnce(cfg, r, other);
        assert LooksAlike(net(n), other(n)) && TurnedAway(other(n));
      }
    } else {
      MarkedIsWitness(cfg, r, net, true);
    }
    if net(n).Success? {
      forall other: Network | SeenAlike(net, other) && Truthful(other) ensures CountProcessed(other, n + 1) > 0 {
        SameAttempts(cfg, r, net, other, 0);
        ProcessedAtMostOnce(cfg, r, other);
        assert LooksAlike(net(n), other(n));
      }
    } else {
      MarkedIsWitness(cfg, r, net, false);
    }
  }

  /**
   So what looks like a definitive rejection may be none exactly when it is not a rate limit: for
   an API error, the same statuses and bodies are seen when the request was processed.
   */
  lemma RejectionMayBeFalseIff(cfg: Config, r: Request, net: Network)
    requires cfg.policy == STRICT && OffTheList(cfg, r) && Truthful(net)
    requires LooksRejected(Classify(net(Last(cfg, r, net, 0))))
    ensures MayBeProcessed(cfg, r, net, true) <==> Classify(net(Last(cfg, r, net, 0))).ApiError?
  {
    OutcomeTells(cfg, r, net);
  }

  /** A 503 with a body, to a request that was processed, surfaces as an API error after one attempt. */
  lemma FalseRejectionExample(cfg: Config, r: Request, net: Network)
    requires cfg.policy == STRICT && OffTheList(cfg, r)
    requires forall k: nat :: net(k) == Failure(Some(503), Some(ErrorBody(None)), true)
    ensures Truthful(net) && Last(cfg, r, net, 0) == 0
    ensures Classify(net(0)) == ApiError(-1) && CountProcessed(net, 1) == 1
  {
    SentAgainIff(cfg, r, net, 0);
    assert CountProcessed(net, 0) == 0;
  }

  /** Placing and changing an order are not on the default list of requests that are safe to repeat. */
  lemma OrderPlacementIsUnsafe(cfg: Config, r: Request)
    requires cfg.idempotentPaths ==
             ["/fapi/v1/order/test", "/api/v3/order/test", "/sapi/v1/capital/deposit/hisrec"]
    requires r.verb == POST || r.verb == PUT
    requires r.path == "/fapi/v1/order" || r.path == "/api/v3/order" || r.path == "/order"
    ensures OffTheList(cfg, r)
  {
    assert |ToLower(r.path)| < |ToLower(cfg.idempotentPaths[0])|;
    if r.path == "/fapi/v1/order" {
      assert ToLower(r.path)[1] == 'f' && ToLower(cfg.idempotentPaths[1])[1] == 'a'
             && ToLower(cfg.idempotentPaths[2])[1] == 's';
    } else if r.path == "/order" {
      assert ToLower(r.path)[1] == 'o' && ToLower(cfg.idempotentPaths[0])[1] == 'f';
      assert ToLower(cfg.idempotentPaths[1])[1] == 'a' && ToLower(cfg.idempotentPaths[2])[1] == 's';
    } else {
      assert ToLower(r.path)[1] == 'a' && ToLower(cfg.idempotentPaths[0])[1] == 'f'
             && ToLower(cfg.idempotentPaths[2])[1] == 's';
      assert |ToLower(r.path)| < |ToLower(cfg.idempotentPaths[1])|;
    }
  }
}
