/** `handle_request` of `src/http/mod.rs`: the branches of a request, what each calls on the shared
    objects, and the books over many interleaved requests. */
module Requests {
  import opened Common
  import opened Configuration
  import opened Routing
  import opened Headers
  import opened Bodies
  import opened Metrics
  import opened Permits
  import opened Retry
  import opened RetryProperties
  import opened Pool
  import opened Health
  import opened Forwarding
  import Balancing
  import CircuitBreaker

  datatype Server = Server(routes: seq<RouteConfig>, policy: Policy, maxRequestBodyBytes: nat)

  datatype Incoming = Incoming(
    httpMethod: string,
    path: string,
    headers: Entries,
    body: seq<BodyEvent>,
    internal: Option<nat>)  // the status with which an internal endpoint answers, if it does

  predicate AlwaysSafe(httpMethod: string) {
    httpMethod in {"GET", "HEAD", "OPTIONS", "TRACE"}
  }

  predicate IsRetryableMethod(httpMethod: string, retryIdempotent: bool) {
    AlwaysSafe(httpMethod) || (retryIdempotent && httpMethod in {"PUT", "DELETE"})
  }

  predicate ShouldRetryRequest(p: Policy, httpMethod: string) {
    p.maxAttempts > 1 && IsRetryableMethod(httpMethod, p.retryIdempotentMethods)
  }

  predicate ShouldPrebufferRequest(httpMethod: string) {
    !AlwaysSafe(httpMethod)
  }

  // ---------------------------------------------------------------------------------------------
  // The calls of a request
  // ---------------------------------------------------------------------------------------------

  function Failure(status: nat, kind: string): seq<Call> {
    [Metric(ProxyError(kind)), Complete(status)]
  }

  /** A single exchange, with the backend that was selected for it. */
  function Once(p: Policy, route: RouteConfig, backend: Url, turn: Turn, entered: Instant): seq<Call> {
    var at := entered + turn.headDelay;
    Exchange(p, route, backend, at, turn.reply, at + turn.forwardTime)
  }

  /** Buffers the body under a permit and then goes on: the permit is returned before anything is
      forwarded, and after the response when the body is rejected. */
  function Admit(srv: Server, req: Incoming, permitFree: bool, onward: seq<Call>): seq<Call> {
    if !permitFree then Failure(503, "buffer_capacity_exceeded")
    else match Buffer([], req.body, srv.maxRequestBodyBytes)
      case Body(_) => [PermitTaken] + [PermitReturned] + onward
      case Rejected(error) => [PermitTaken] + Failure(error.Status(), error.Kind()) + [PermitReturned]
  }

  /** A request that is not retried. */
  function OnceLog(srv: Server, route: RouteConfig, req: Incoming, permitFree: bool, turn: Turn, entered: Instant): seq<Call> {
    if turn.healthy == [] then
      Failure(503, "no_healthy_backends")
    else
      var onward := Once(srv.policy, route, Choice(route, turn.ticket, turn.healthy), turn, entered);
      if ShouldPrebufferRequest(req.httpMethod) then Admit(srv, req, permitFree, onward) else onward
  }

  function AfterRouting(srv: Server, route: RouteConfig, req: Incoming, permitFree: bool, turns: seq<Turn>, entered: Instant): seq<Call>
    requires Attempts(srv.policy) <= |turns|
  {
    if ShouldRetryRequest(srv.policy, req.httpMethod) then
      Admit(srv, req, permitFree, RetryLoop(srv.policy, route, turns, 1, {}, entered).log)
    else
      OnceLog(srv, route, req, permitFree, turns[0], entered)
  }

  /** The request is for a backend: it is not for the proxy itself, not too long, and matches a route. */
  function RouteFor(srv: Server, req: Incoming): Option<RouteConfig>
    requires WellFormed(req.headers)
  {
    if req.internal.Some? || ContentLengthExceeds(req.headers, srv.maxRequestBodyBytes).Some? then None
    else MatchRoute(req.path, srv.routes)
  }

  function HandleLog(srv: Server, req: Incoming, permitFree: bool, turns: seq<Turn>, entered: Instant): seq<Call>
    requires Attempts(srv.policy) <= |turns| && WellFormed(req.headers)
  {
    [Metric(RequestSeen)] +
    if req.internal.Some? then [Complete(req.internal.value)]
    else if ContentLengthExceeds(req.headers, srv.maxRequestBodyBytes).Some? then Failure(413, "request_body_too_large")
    else match MatchRoute(req.path, srv.routes)
      case None => [Complete(404)]
      case Some(route) => AfterRouting(srv, route, req, permitFree, turns, entered)
  }

  // ---------------------------------------------------------------------------------------------
  // The books of one request
  // ---------------------------------------------------------------------------------------------

  /** One response for the request and one for every retry started; a latency sample and a health
      outcome for every forward. */
  ghost predicate Balanced(t: Tally) {
    && t.statuses == 1 + t.retriesStarted
    && t.latencies == t.forwards == t.outcomes
    && t.permitsTaken == t.permitsReturned <= 1
  }

  lemma FailureCalls(status: nat, kind: string)
    ensures TallyOf(Failure(status, kind)) == NOTHING.(statuses := 1)
  {
    PairCalls(Metric(ProxyError(kind)), Complete(status));
  }

  lemma SingleCall(c: Call)
    ensures TallyOf([c]) == Add(NOTHING, c)
  {
    Snoc([], c);
    assert [] + [c] == [c];
    NoCalls();
  }

  lemma AdmitBalances(srv: Server, req: Incoming, permitFree: bool, onward: seq<Call>)
    requires Balanced(TallyOf(onward)) && TallyOf(onward).requests == TallyOf(onward).permitsTaken == 0
    ensures var t := TallyOf(Admit(srv, req, permitFree, onward));
            Balanced(t) && t.requests == 0
  {
    hide TallyOf, Failure, Buffer;
    if !permitFree {
      FailureCalls(503, "buffer_capacity_exceeded");
    } else {
      match Buffer([], req.body, srv.maxRequestBodyBytes)
      case Body(_) => AdmittedCalls(onward);
      case Rejected(error) => SpoiledCalls(error.Status(), error.Kind());
    }
  }

  lemma TallySplit(a: seq<Call>, b: seq<Call>)
    ensures TallyOf(a + b) == Plus(TallyOf(a), TallyOf(b))
  {
    CallsSplit(a, b);
  }

  lemma BothCalls(c: Call, d: Call)
    ensures TallyOf([c] + [d]) == Add(Add(NOTHING, c), d)
  {
    assert [c] + [d] == [c, d];
    PairCalls(c, d);
  }

  lemma AdmittedCalls(onward: seq<Call>)
    ensures TallyOf([PermitTaken] + [PermitReturned] + onward)
         == Plus(NOTHING.(permitsTaken := 1, permitsReturned := 1), TallyOf(onward))
  {
    BothCalls(PermitTaken, PermitReturned);
    hide TallyOf;
    TallySplit([PermitTaken] + [PermitReturned], onward);
  }

  lemma SpoiledCalls(status: nat, kind: string)
    ensures TallyOf([PermitTaken] + Failure(status, kind) + [PermitReturned])
         == NOTHING.(permitsTaken := 1, permitsReturned := 1, statuses := 1)
  {
    hide TallyOf, Failure, Plus;
    FailureCalls(status, kind);
    SingleCall(PermitTaken);
    TallySplit([PermitTaken], Failure(status, kind));
    AddFirst(TallyOf(Failure(status, kind)), PermitTaken);
    Snoc([PermitTaken] + Failure(status, kind), PermitReturned);
  }

  lemma OnceBalances(p: Policy, route: RouteConfig, backend: Url, turn: Turn, entered: Instant)
    ensures var t := TallyOf(Once(p, route, backend, turn, entered));
            Balanced(t) && t.requests == t.permitsTaken == 0
  {
    var at := entered + turn.headDelay;
    ExchangeCalls(p, route, backend, at, turn.reply, at + turn.forwardTime);
  }

  lemma AfterRoutingBalances(srv: Server, route: RouteConfig, req: Incoming, permitFree: bool, turns: seq<Turn>, entered: Instant)
    requires Attempts(srv.policy) <= |turns|
    ensures var t := TallyOf(AfterRouting(srv, route, req, permitFree, turns, entered));
            Balanced(t) && t.requests == 0
  {
    hide TallyOf, RetryLoop, Once, Admit, Choice, Failure;
    if ShouldRetryRequest(srv.policy, req.httpMethod) {
      LoopAccounts(srv.policy, route, turns, 1, {}, entered);
      AdmitBalances(srv, req, permitFree, RetryLoop(srv.policy, route, turns, 1, {}, entered).log);
    } else if turns[0].healthy == [] {
      FailureCalls(503, "no_healthy_backends");
    } else {
      var backend := Choice(route, turns[0].ticket, turns[0].healthy);
      OnceBalances(srv.policy, route, backend, turns[0], entered);
      AdmitBalances(srv, req, permitFree, Once(srv.policy, route, backend, turns[0], entered));
    }
  }

  /** The books of every request balance, on every branch: it is counted once, answered once, plus once
      per retry started, and it gives back the permit that it takes. */
  lemma RequestBalances(srv: Server, req: Incoming, permitFree: bool, turns: seq<Turn>, entered: Instant)
    requires Attempts(srv.policy) <= |turns| && WellFormed(req.headers)
    ensures var t := TallyOf(HandleLog(srv, req, permitFree, turns, entered));
            Balanced(t) && t.requests == 1
  {
    hide TallyOf, AfterRouting, Failure, ContentLengthExceeds, MatchRoute;
    var first: seq<Call> := [Metric(RequestSeen)];
    SingleCall(Metric(RequestSeen));
    if req.internal.Some? {
      SingleCall(Complete(req.internal.value));
      CallsSplit(first, [Complete(req.internal.value)]);
    } else if ContentLengthExceeds(req.headers, srv.maxRequestBodyBytes).Some? {
      FailureCalls(413, "request_body_too_large");
      CallsSplit(first, Failure(413, "request_body_too_large"));
    } else {
      match MatchRoute(req.path, srv.routes)
      case None =>
        SingleCall(Complete(404));
        CallsSplit(first, [Complete(404)]);
      case Some(route) =>
        AfterRoutingBalances(srv, route, req, permitFree, turns, entered);
        CallsSplit(first, AfterRouting(srv, route, req, permitFree, turns, entered));
    }
  }

  // ---------------------------------------------------------------------------------------------
  // What is forwarded at all
  // ---------------------------------------------------------------------------------------------

  lemma FailureForwardsNothing(status: nat, kind: string)
    ensures ForwardsOf(Failure(status, kind)) == [] && OutcomesOf(Failure(status, kind)) == []
    ensures LastStatus(Failure(status, kind)) == Some(status)
  {
    PairCalls(Metric(ProxyError(kind)), Complete(status));
  }

  lemma SingleForwardsNothing(c: Call)
    requires !c.Forward? && !c.Outcome?
    ensures ForwardsOf([c]) == [] && OutcomesOf([c]) == []
    ensures LastStatus([c]) == if c.Metric? && c.effect.ResponseStatus? then Some(c.effect.status) else None
  {
    Snoc([], c);
    assert [] + [c] == [c];
    NoCalls();
  }

  /** What a request does to the backends goes on behind the buffer, and only there. */
  lemma AdmitForwards(srv: Server, req: Incoming, permitFree: bool, onward: seq<Call>)
    ensures var log, admitted := Admit(srv, req, permitFree, onward), permitFree && Buffer([], req.body, srv.maxRequestBodyBytes).Body?;
            && ForwardsOf(log) == (if admitted then ForwardsOf(onward) else [])
            && OutcomesOf(log) == (if admitted then OutcomesOf(onward) else [])
            && LastStatus(log)
            == if admitted then LastStatus(onward)
               else Some(if permitFree then Buffer([], req.body, srv.maxRequestBodyBytes).error.Status() else 503)
  {
    hide ForwardsOf, OutcomesOf, LastStatus, Failure, Buffer;
    SingleForwardsNothing(PermitTaken);
    SingleForwardsNothing(PermitReturned);
    if !permitFree {
      FailureForwardsNothing(503, "buffer_capacity_exceeded");
    } else {
      match Buffer([], req.body, srv.maxRequestBodyBytes)
      case Body(_) =>
        AppendCalls([PermitTaken], [PermitReturned]);
        AppendCalls([PermitTaken] + [PermitReturned], onward);
      case Rejected(error) =>
        var failure := Failure(error.Status(), error.Kind());
        FailureForwardsNothing(error.Status(), error.Kind());
        AppendCalls([PermitTaken], failure);
        AppendCalls([PermitTaken] + failure, [PermitReturned]);
    }
  }

  lemma AppendCalls(a: seq<Call>, b: seq<Call>)
    ensures ForwardsOf(a + b) == ForwardsOf(a) + ForwardsOf(b)
    ensures OutcomesOf(a + b) == OutcomesOf(a) + OutcomesOf(b)
    ensures TallyOf(a + b) == Plus(TallyOf(a), TallyOf(b))
    ensures LastStatus(a + b) == if LastStatus(b).Some? then LastStatus(b) else LastStatus(a)
  {
    CallsSplit(a, b);
    LastStatusSplits(a, b);
  }

  /** A request reaches a backend only if it is not for the proxy itself, does not declare too long a
      body, and matches a route; and, for every method whose body is buffered, only if a permit was free
      and its whole body arrived within the limit. Nothing of a partial upload is forwarded. */
  lemma OnlyWholeRequestsAreForwarded(srv: Server, req: Incoming, permitFree: bool, turns: seq<Turn>, entered: Instant)
    requires Attempts(srv.policy) <= |turns| && WellFormed(req.headers)
    requires ForwardsOf(HandleLog(srv, req, permitFree, turns, entered)) != []
    ensures req.internal.None?
    ensures ContentLengthExceeds(req.headers, srv.maxRequestBodyBytes).None?
    ensures exists r :: r in srv.routes && Matches(req.path, r.pathPrefix)
    ensures ShouldRetryRequest(srv.policy, req.httpMethod) || ShouldPrebufferRequest(req.httpMethod) ==>
              permitFree && Buffer([], req.body, srv.maxRequestBodyBytes).Body?
  {
    hide ForwardsOf, OutcomesOf, LastStatus, AfterRouting, Failure, ContentLengthExceeds, Buffer, ShouldRetryRequest, ShouldPrebufferRequest,
         MatchRoute, Matches;
    var first: seq<Call> := [Metric(RequestSeen)];
    SingleForwardsNothing(Metric(RequestSeen));
    if req.internal.Some? {
      SingleForwardsNothing(Complete(req.internal.value));
      CallsSplit(first, [Complete(req.internal.value)]);
    } else if ContentLengthExceeds(req.headers, srv.maxRequestBodyBytes).Some? {
      FailureForwardsNothing(413, "request_body_too_large");
      CallsSplit(first, Failure(413, "request_body_too_large"));
    } else {
      match MatchRoute(req.path, srv.routes)
      case None =>
        SingleForwardsNothing(Complete(404));
        CallsSplit(first, [Complete(404)]);
      case Some(route) =>
        CallsSplit(first, AfterRouting(srv, route, req, permitFree, turns, entered));
        if ShouldRetryRequest(srv.policy, req.httpMethod) || ShouldPrebufferRequest(req.httpMethod) {
          RoutedForwards(srv, route, req, permitFree, turns, entered);
        }
    }
  }

  lemma RoutedForwards(srv: Server, route: RouteConfig, req: Incoming, permitFree: bool, turns: seq<Turn>, entered: Instant)
    requires Attempts(srv.policy) <= |turns|
    requires ShouldRetryRequest(srv.policy, req.httpMethod) || ShouldPrebufferRequest(req.httpMethod)
    ensures ForwardsOf(AfterRouting(srv, route, req, permitFree, turns, entered)) != [] ==>
              permitFree && Buffer([], req.body, srv.maxRequestBodyBytes).Body?
  {
    hide ForwardsOf, OutcomesOf, LastStatus, Failure, Buffer, RetryLoop, Once, Choice, Admit;
    FailureForwardsNothing(503, "no_healthy_backends");
    AdmitForwards(srv, req, permitFree, RetryLoop(srv.policy, route, turns, 1, {}, entered).log);
    if turns[0].healthy != [] {
      var backend := Choice(route, turns[0].ticket, turns[0].healthy);
      AdmitForwards(srv, req, permitFree, Once(srv.policy, route, backend, turns[0], entered));
    }
  }

  predicate Admitted(srv: Server, req: Incoming, permitFree: bool) {
    permitFree && Buffer([], req.body, srv.maxRequestBodyBytes).Body?
  }

  /** What a request does, by the method that it names. */
  lemma HandleByRoute(srv: Server, req: Incoming, permitFree: bool, turns: seq<Turn>, entered: Instant)
    requires Attempts(srv.policy) <= |turns| && WellFormed(req.headers)
    ensures var log := HandleLog(srv, req, permitFree, turns, entered);
            match RouteFor(srv, req)
            case None => ForwardsOf(log) == [] && OutcomesOf(log) == [] && LastStatus(log).Some? && TallyOf(log) == NOTHING.(requests := 1, statuses := 1)
            case Some(route) =>
              var after := AfterRouting(srv, route, req, permitFree, turns, entered);
              && ForwardsOf(log) == ForwardsOf(after) && OutcomesOf(log) == OutcomesOf(after)
              && TallyOf(log) == Plus(NOTHING.(requests := 1), TallyOf(after))
              && (LastStatus(after).Some? ==> LastStatus(log) == LastStatus(after))
  {
    hide ForwardsOf, OutcomesOf, LastStatus, TallyOf, AfterRouting, Failure, ContentLengthExceeds, MatchRoute, Matches;
    var first: seq<Call> := [Metric(RequestSeen)];
    SingleForwardsNothing(Metric(RequestSeen));
    SingleCall(Metric(RequestSeen));
    if req.internal.Some? {
      OneAnswer(first, req.internal.value);
    } else if ContentLengthExceeds(req.headers, srv.maxRequestBodyBytes).Some? {
      FailureCalls(413, "request_body_too_large");
      FailureForwardsNothing(413, "request_body_too_large");
      AppendCalls(first, Failure(413, "request_body_too_large"));
    } else {
      match MatchRoute(req.path, srv.routes)
      case None =>
        OneAnswer(first, 404);
      case Some(route) =>
        AppendCalls(first, AfterRouting(srv, route, req, permitFree, turns, entered));
    }
  }

  lemma OneAnswer(first: seq<Call>, status: nat)
    requires first == [Metric(RequestSeen)]
    ensures var log := first + [Complete(status)];
            && ForwardsOf(log) == [] && OutcomesOf(log) == [] && LastStatus(log) == Some(status)
            && TallyOf(log) == NOTHING.(requests := 1, statuses := 1)
  {
    SingleForwardsNothing(Metric(RequestSeen));
    SingleForwardsNothing(Complete(status));
    SingleCall(Metric(RequestSeen));
    SingleCall(Complete(status));
    AppendCalls(first, [Complete(status)]);
  }

  /** A method that may be sent again: the safe ones, and two more when the operator has opted in. */
  predicate MayBeReplayed(p: Policy, httpMethod: string) {
    || httpMethod == "GET" || httpMethod == "HEAD" || httpMethod == "OPTIONS" || httpMethod == "TRACE"
    || (p.retryIdempotentMethods && (httpMethod == "PUT" || httpMethod == "DELETE"))
  }

  predicate Safe(httpMethod: string) {
    httpMethod in ["GET", "HEAD", "OPTIONS", "TRACE"]
  }

  lemma MethodsMean(p: Policy, httpMethod: string)
    ensures ShouldRetryRequest(p, httpMethod) <==> p.maxAttempts > 1 && MayBeReplayed(p, httpMethod)
    ensures ShouldPrebufferRequest(httpMethod) <==> !Safe(httpMethod)
  {
  }

  // ---------------------------------------------------------------------------------------------
  // What the client gets
  // ---------------------------------------------------------------------------------------------

  /** The answer to a request whose body is buffered: that of what follows, or the reason why not. */
  function BufferedAnswer(srv: Server, req: Incoming, permitFree: bool, onward: nat): nat {
    if !permitFree then 503
    else match Buffer([], req.body, srv.maxRequestBodyBytes)
      case Body(_) => onward
      case Rejected(TooLarge) => 413
      case Rejected(TimedOut) => 408
      case Rejected(ReadFailed) => 400
  }

  lemma AdmitAnswers(srv: Server, req: Incoming, permitFree: bool, onward: seq<Call>, status: nat)
    requires LastStatus(onward) == Some(status)
    ensures LastStatus(Admit(srv, req, permitFree, onward)) == Some(BufferedAnswer(srv, req, permitFree, status))
  {
    hide LastStatus, Buffer, Admit, ForwardsOf, OutcomesOf;
    AdmitForwards(srv, req, permitFree, onward);
  }

  lemma OnceAnswered(srv: Server, route: RouteConfig, req: Incoming, permitFree: bool, turn: Turn, entered: Instant)
    ensures LastStatus(OnceLog(srv, route, req, permitFree, turn, entered))
         == Some(if turn.healthy == [] then 503
                 else if Safe(req.httpMethod) then SeenStatus(turn.reply)
                 else BufferedAnswer(srv, req, permitFree, SeenStatus(turn.reply)))
  {
    MethodsMean(srv.policy, req.httpMethod);
    hide LastStatus, Failure, Once, Choice, Admit, BufferedAnswer, ForwardsOf, OutcomesOf, ShouldRetryRequest, ShouldPrebufferRequest, MayBeReplayed, Safe;
    if turn.healthy == [] {
      FailureForwardsNothing(503, "no_healthy_backends");
    } else {
      var backend := Choice(route, turn.ticket, turn.healthy);
      OnceAnswers(srv.policy, route, backend, turn, entered);
      AdmitAnswers(srv, req, permitFree, Once(srv.policy, route, backend, turn, entered), SeenStatus(turn.reply));
    }
  }

  /** The client's answer, for every way that a request can take. */
  lemma AnswerIsDictated(srv: Server, req: Incoming, permitFree: bool, turns: seq<Turn>, entered: Instant)
    requires Attempts(srv.policy) <= |turns| && WellFormed(req.headers)
    ensures LastStatus(HandleLog(srv, req, permitFree, turns, entered))
         == Some(if req.internal.Some? then req.internal.value
                 else if ContentLengthExceeds(req.headers, srv.maxRequestBodyBytes).Some? then 413
                 else if forall r :: r in srv.routes ==> !Matches(req.path, r.pathPrefix) then 404
                 else if srv.policy.maxAttempts > 1 && MayBeReplayed(srv.policy, req.httpMethod)
                 then BufferedAnswer(srv, req, permitFree, RetryLoop(srv.policy, MatchRoute(req.path, srv.routes).value, turns, 1, {}, entered).status)
                 else if turns[0].healthy == [] then 503
                 else if Safe(req.httpMethod) then SeenStatus(turns[0].reply)
                 else BufferedAnswer(srv, req, permitFree, SeenStatus(turns[0].reply)))
  {
    hide LastStatus, Failure, ContentLengthExceeds, MatchRoute, Matches, Admit, OnceLog, RetryLoop, BufferedAnswer, TallyOf,
         ForwardsOf, OutcomesOf, SeenStatus, Plus, ShouldRetryRequest, ShouldPrebufferRequest, MayBeReplayed, Safe;
    MethodsMean(srv.policy, req.httpMethod);
    var first: seq<Call> := [Metric(RequestSeen)];
    if req.internal.Some? {
      OneAnswer(first, req.internal.value);
    } else if ContentLengthExceeds(req.headers, srv.maxRequestBodyBytes).Some? {
      FailureForwardsNothing(413, "request_body_too_large");
      AppendCalls(first, Failure(413, "request_body_too_large"));
    } else {
      match MatchRoute(req.path, srv.routes)
      case None =>
        OneAnswer(first, 404);
      case Some(route) =>
        AppendCalls(first, AfterRouting(srv, route, req, permitFree, turns, entered));
        if ShouldRetryRequest(srv.policy, req.httpMethod) {
          LoopAnswers(srv.policy, route, turns, 1, {}, entered);
          var run := RetryLoop(srv.policy, route, turns, 1, {}, entered);
          AdmitAnswers(srv, req, permitFree, run.log, run.status);
        } else {
          OnceAnswered(srv, route, req, permitFree, turns[0], entered);
        }
    }
  }

  /** The errors that are counted for a request whose body is buffered. */
  function BufferedErrors(srv: Server, req: Incoming, permitFree: bool, onward: seq<string>): seq<string> {
    if !permitFree then ["buffer_capacity_exceeded"]
    else match Buffer([], req.body, srv.maxRequestBodyBytes)
      case Body(_) => onward
      case Rejected(TooLarge) => ["request_body_too_large"]
      case Rejected(TimedOut) => ["client_body_timeout"]
      case Rejected(ReadFailed) => ["client_request_body_read_failed"]
  }

  lemma FailureErrors(status: nat, kind: string)
    ensures ErrorsOf(Failure(status, kind)) == [kind]
  {
    PairErrors(kind, status);
  }

  lemma SilentErrors(log: seq<Call>)
    requires forall c :: c in log ==> !(c.Metric? && c.effect.ProxyError?)
    ensures ErrorsOf(log) == []
  {
  }

  lemma AdmitErrors(srv: Server, req: Incoming, permitFree: bool, onward: seq<Call>)
    ensures ErrorsOf(Admit(srv, req, permitFree, onward)) == BufferedErrors(srv, req, permitFree, ErrorsOf(onward))
  {
    SilentErrors([PermitTaken]);
    SilentErrors([PermitReturned]);
    hide ErrorsOf, RetriesOf, Failure, Buffer;
    if !permitFree {
      FailureErrors(503, "buffer_capacity_exceeded");
    } else {
      match Buffer([], req.body, srv.maxRequestBodyBytes)
      case Body(_) =>
        ErrorsSplit([PermitTaken], [PermitReturned]);
        ErrorsSplit([PermitTaken] + [PermitReturned], onward);
      case Rejected(error) =>
        FailureErrors(error.Status(), error.Kind());
        ErrorsAround([PermitTaken], Failure(error.Status(), error.Kind()), [PermitReturned]);
    }
  }

  lemma ErrorsAround(before: seq<Call>, log: seq<Call>, after: seq<Call>)
    requires ErrorsOf(before) == ErrorsOf(after) == []
    ensures ErrorsOf(before + log + after) == ErrorsOf(log)
  {
    hide ErrorsOf, RetriesOf;
    ErrorsSplit(before, log);
    ErrorsSplit(before + log, after);
  }

  lemma OnceErrors(srv: Server, route: RouteConfig, req: Incoming, permitFree: bool, turn: Turn, entered: Instant)
    ensures ErrorsOf(OnceLog(srv, route, req, permitFree, turn, entered))
         == if turn.healthy == [] then ["no_healthy_backends"]
            else if Safe(req.httpMethod) then ReplyErrors(turn.reply)
            else BufferedErrors(srv, req, permitFree, ReplyErrors(turn.reply))
  {
    MethodsMean(srv.policy, req.httpMethod);
    hide ErrorsOf, Failure, Choice, Admit, BufferedErrors, ReplyErrors, Exchange, ShouldPrebufferRequest, Safe;
    if turn.healthy == [] {
      FailureErrors(503, "no_healthy_backends");
    } else {
      var backend := Choice(route, turn.ticket, turn.healthy);
      var at := entered + turn.headDelay;
      ExchangeErrors(srv.policy, route, backend, at, turn.reply, at + turn.forwardTime);
      AdmitErrors(srv, req, permitFree, Once(srv.policy, route, backend, turn, entered));
    }
  }

  /** The errors that are counted for a request, for every way that it can take. */
  lemma ErrorsAreNamed(srv: Server, req: Incoming, permitFree: bool, turns: seq<Turn>, entered: Instant)
    requires Attempts(srv.policy) <= |turns| && WellFormed(req.headers)
    ensures ErrorsOf(HandleLog(srv, req, permitFree, turns, entered))
         == if req.internal.Some? then []
            else if ContentLengthExceeds(req.headers, srv.maxRequestBodyBytes).Some? then ["request_body_too_large"]
            else match MatchRoute(req.path, srv.routes)
              case None => []
              case Some(route) =>
                if srv.policy.maxAttempts > 1 && MayBeReplayed(srv.policy, req.httpMethod)
                then BufferedErrors(srv, req, permitFree, ErrorsOf(RetryLoop(srv.policy, route, turns, 1, {}, entered).log))
                else if turns[0].healthy == [] then ["no_healthy_backends"]
                else if Safe(req.httpMethod) then ReplyErrors(turns[0].reply)
                else BufferedErrors(srv, req, permitFree, ReplyErrors(turns[0].reply))
  {
    MethodsMean(srv.policy, req.httpMethod);
    var first: seq<Call> := [Metric(RequestSeen)];
    SilentErrors(first);
    hide ErrorsOf, RetriesOf, Failure, ContentLengthExceeds, MatchRoute, Matches, Admit, OnceLog, RetryLoop, BufferedErrors,
         ReplyErrors, ShouldRetryRequest, MayBeReplayed, Safe;
    if req.internal.Some? {
      AnswerErrors(first, req.internal.value);
    } else if ContentLengthExceeds(req.headers, srv.maxRequestBodyBytes).Some? {
      FailureErrors(413, "request_body_too_large");
      ErrorsSplit(first, Failure(413, "request_body_too_large"));
    } else {
      match MatchRoute(req.path, srv.routes)
      case None =>
        AnswerErrors(first, 404);
      case Some(route) =>
        ErrorsSplit(first, AfterRouting(srv, route, req, permitFree, turns, entered));
        if ShouldRetryRequest(srv.policy, req.httpMethod) {
          AdmitErrors(srv, req, permitFree, RetryLoop(srv.policy, route, turns, 1, {}, entered).log);
        } else {
          OnceErrors(srv, route, req, permitFree, turns[0], entered);
        }
    }
  }

  lemma AnswerErrors(log: seq<Call>, status: nat)
    ensures ErrorsOf(log + [Complete(status)]) == ErrorsOf(log)
  {
    ErrorsSnoc(log, Complete(status));
  }

  // ---------------------------------------------------------------------------------------------
  // Which requests are sent more than once
  // ---------------------------------------------------------------------------------------------

  lemma OnceForwardsOnce(srv: Server, route: RouteConfig, req: Incoming, permitFree: bool, turn: Turn, entered: Instant)
    ensures var log := OnceLog(srv, route, req, permitFree, turn, entered);
            && |ForwardsOf(log)| <= 1 && TallyOf(log).retriesLogged == TallyOf(log).retriesStarted == 0
            && TallyOf(log).permitsTaken
            == if turn.healthy != [] && permitFree && ShouldPrebufferRequest(req.httpMethod) then 1 else 0
  {
    hide ForwardsOf, OutcomesOf, LastStatus, TallyOf, Failure, Once, Choice, Admit, Buffer;
    if turn.healthy == [] {
      FailureCalls(503, "no_healthy_backends");
      FailureForwardsNothing(503, "no_healthy_backends");
    } else {
      var backend := Choice(route, turn.ticket, turn.healthy);
      OnceCalls(srv.policy, route, backend, turn, entered);
      AdmitForwards(srv, req, permitFree, Once(srv.policy, route, backend, turn, entered));
      AdmitTallies(srv, req, permitFree, Once(srv.policy, route, backend, turn, entered));
    }
  }

  lemma OnceCalls(p: Policy, route: RouteConfig, backend: Url, turn: Turn, entered: Instant)
    ensures var log := Once(p, route, backend, turn, entered);
            ForwardsOf(log) == [backend] && TallyOf(log) == NOTHING.(statuses := 1, latencies := 1, forwards := 1, outcomes := 1)
  {
    var at := entered + turn.headDelay;
    ExchangeCalls(p, route, backend, at, turn.reply, at + turn.forwardTime);
  }

  /** A permit is taken whenever one is free, and retries are what comes behind the buffer. */
  lemma AdmitTallies(srv: Server, req: Incoming, permitFree: bool, onward: seq<Call>)
    requires TallyOf(onward).permitsTaken == 0
    ensures var t := TallyOf(Admit(srv, req, permitFree, onward));
            && t.permitsTaken == (if permitFree then 1 else 0)
            && t.retriesLogged == (if Admitted(srv, req, permitFree) then TallyOf(onward).retriesLogged else 0)
            && t.retriesStarted == (if Admitted(srv, req, permitFree) then TallyOf(onward).retriesStarted else 0)
  {
    hide TallyOf, Failure, Buffer;
    if !permitFree {
      FailureCalls(503, "buffer_capacity_exceeded");
    } else {
      match Buffer([], req.body, srv.maxRequestBodyBytes)
      case Body(_) => AdmittedCalls(onward);
      case Rejected(error) => SpoiledCalls(error.Status(), error.Kind());
    }
  }

  /** A request whose method may not be replayed is sent to at most one backend, and no retry of it is ever
      announced, whatever the policy and the replies are. */
  lemma NeverReplayed(srv: Server, req: Incoming, permitFree: bool, turns: seq<Turn>, entered: Instant)
    requires Attempts(srv.policy) <= |turns| && WellFormed(req.headers)
    requires !MayBeReplayed(srv.policy, req.httpMethod) || srv.policy.maxAttempts <= 1
    ensures var log := HandleLog(srv, req, permitFree, turns, entered);
            |ForwardsOf(log)| <= 1 && TallyOf(log).retriesLogged == TallyOf(log).retriesStarted == 0
  {
    HandleByRoute(srv, req, permitFree, turns, entered);
    MethodsMean(srv.policy, req.httpMethod);
    hide ForwardsOf, TallyOf, HandleLog, OnceLog, RouteFor, ShouldRetryRequest, ShouldPrebufferRequest, MayBeReplayed, Safe;
    match RouteFor(srv, req)
    case None =>
    case Some(route) =>
      OnceForwardsOnce(srv, route, req, permitFree, turns[0], entered);
  }

  /** A permit is taken exactly when one is free and the body is buffered: for a request that is replayed,
      and for one that is not safe and has a backend. So a GET, HEAD, OPTIONS or TRACE takes none when
      there is a single attempt. */
  lemma PermitTakenIff(srv: Server, req: Incoming, permitFree: bool, turns: seq<Turn>, entered: Instant)
    requires Attempts(srv.policy) <= |turns| && WellFormed(req.headers)
    ensures TallyOf(HandleLog(srv, req, permitFree, turns, entered)).permitsTaken
         == if && permitFree && RouteFor(srv, req).Some?
               && if srv.policy.maxAttempts > 1 && MayBeReplayed(srv.policy, req.httpMethod) then true
                  else turns[0].healthy != [] && !Safe(req.httpMethod)
            then 1 else 0
  {
    HandleByRoute(srv, req, permitFree, turns, entered);
    MethodsMean(srv.policy, req.httpMethod);
    hide ForwardsOf, OutcomesOf, LastStatus, TallyOf, HandleLog, OnceLog, RouteFor, Admit, RetryLoop, OutcomesMatch, ShouldRetryRequest, ShouldPrebufferRequest, MayBeReplayed, Safe;
    match RouteFor(srv, req)
    case None =>
    case Some(route) =>
      if ShouldRetryRequest(srv.policy, req.httpMethod) {
        LoopAccounts(srv.policy, route, turns, 1, {}, entered);
        AdmitTallies(srv, req, permitFree, RetryLoop(srv.policy, route, turns, 1, {}, entered).log);
      } else {
        OnceForwardsOnce(srv, route, req, permitFree, turns[0], entered);
      }
  }

  /** In some environment the request is sent to more than one backend. */
  ghost predicate CanGoTwice(srv: Server, req: Incoming)
    requires WellFormed(req.headers)
  {
    exists permitFree: bool, turns: seq<Turn>, entered: Instant ::
      && Attempts(srv.policy) <= |turns|
      && (RouteFor(srv, req).Some? ==> HealthyOfRoute(RouteFor(srv, req).value, turns))
      && |ForwardsOf(HandleLog(srv, req, permitFree, turns, entered))| >= 2
  }

  ghost predicate TwoBackends(route: RouteConfig) {
    exists a, b :: a in route.backends && b in route.backends && a != b
  }

  /** What it takes: a second attempt, a method that may be replayed, a route with two backends and a status
      to retry on, a body that can be buffered, and a budget that leaves time for the first pause. */
  ghost predicate Repeatable(srv: Server, req: Incoming)
    requires WellFormed(req.headers)
  {
    && srv.policy.maxAttempts > 1 && MayBeReplayed(srv.policy, req.httpMethod)
    && RouteFor(srv, req).Some? && TwoBackends(RouteFor(srv, req).value)
    && RetryStatuses(srv.policy, RouteFor(srv, req).value) != []
    && Buffer([], req.body, srv.maxRequestBodyBytes).Body?
    && Pause(srv.policy, 1) < srv.policy.totalTimeout
  }

  lemma TwiceIsRepeatable(srv: Server, req: Incoming, permitFree: bool, turns: seq<Turn>, entered: Instant)
    requires Attempts(srv.policy) <= |turns| && WellFormed(req.headers)
    requires RouteFor(srv, req).Some? ==> HealthyOfRoute(RouteFor(srv, req).value, turns)
    requires |ForwardsOf(HandleLog(srv, req, permitFree, turns, entered))| >= 2
    ensures Repeatable(srv, req)
  {
    hide ForwardsOf, TallyOf, HandleLog, RouteFor, Buffer, RetryLoop, Pause, RetryStatuses, Admit, LastStatus, OutcomesOf;
    if !MayBeReplayed(srv.policy, req.httpMethod) || srv.policy.maxAttempts <= 1 {
      NeverReplayed(srv, req, permitFree, turns, entered);
    }
    HandleByRoute(srv, req, permitFree, turns, entered);
    var route := RouteFor(srv, req).value;
    AdmitForwards(srv, req, permitFree, RetryLoop(srv.policy, route, turns, 1, {}, entered).log);
    LoopTwice(srv.policy, route, turns, entered);
  }

  lemma LoopTwice(p: Policy, route: RouteConfig, turns: seq<Turn>, entered: Instant)
    requires Attempts(p) <= |turns| && HealthyOfRoute(route, turns)
    requires |ForwardsOf(RetryLoop(p, route, turns, 1, {}, entered).log)| >= 2
    ensures TwoBackends(route) && RetryStatuses(p, route) != [] && Pause(p, 1) < p.totalTimeout
  {
    hide RetryLoop, ForwardsOf, TallyOf, Pause, RetryStatuses, ForwardTimes;
    var run := RetryLoop(p, route, turns, 1, {}, entered);
    var tried := ForwardsOf(run.log);
    LoopForwards(p, route, turns, 1, {}, entered);
    assert tried[0] in turns[0].healthy && tried[1] in turns[1].healthy && tried[0] != tried[1];
    assert tried[0] in route.backends && tried[1] in route.backends;
    LoopPaces(p, route, turns, 1, {}, entered);
    var times := ForwardTimes(run.log);
    assert times[0] + turns[0].forwardTime + Pause(p, 1) <= times[1] < p.totalTimeout;
    ResultIsDictated(p, route, turns, entered);
    assert SeenStatus(turns[0].reply) in RetryStatuses(p, route);
  }

  /** A turn in which `b` answers `status` at once. */
  function Quick(b: Url, status: nat): Turn {
    Turn(0, [b], 0, Response(status), 0, 0, 0, 0)
  }

  lemma QuickLoopGoesTwice(p: Policy, route: RouteConfig, a: Url, b: Url, turns: seq<Turn>)
    requires p.maxAttempts > 1 && a != b && RetryStatuses(p, route) != [] && Pause(p, 1) < p.totalTimeout
    requires |turns| == Attempts(p) && turns[0] == Quick(a, RetryStatuses(p, route)[0])
    requires turns[1] == Quick(b, RetryStatuses(p, route)[0])
    ensures |ForwardsOf(RetryLoop(p, route, turns, 1, {}, 0).log)| >= 2
  {
    var status := RetryStatuses(p, route)[0];
    QuickIterates(p, route, a, status);
    SecondForwards(p, route, b, status, turns, {} + {a}, Pause(p, 1));
    hide ForwardsOf, OutcomesOf, TallyOf, Iterate, RetryLoop, Pause, RetryStatuses, Plus;
    LoopCalls(p, route, turns, 1, {}, 0);
  }

  lemma SecondForwards(p: Policy, route: RouteConfig, b: Url, status: nat, turns: seq<Turn>, attempted: set<Url>, now: Instant)
    requires p.maxAttempts > 1 && |turns| == Attempts(p) && turns[1] == Quick(b, status)
    requires b !in attempted && now < p.totalTimeout
    ensures |ForwardsOf(RetryLoop(p, route, turns, 2, attempted, now).log)| >= 1
  {
    QuickForwards(p, route, b, status, attempted, now);
    hide ForwardsOf, Iterate, RetryLoop, Quick;
    LoopForwardsOnce(p, route, turns, 2, attempted, now);
  }

  lemma QuickIterates(p: Policy, route: RouteConfig, a: Url, status: nat)
    requires p.maxAttempts > 1 && status in RetryStatuses(p, route) && Pause(p, 1) < p.totalTimeout
    ensures var it := Iterate(p, route, Quick(a, status), 1, {}, 0);
            it.Again? && it.backend == a && it.next == Pause(p, 1)
  {
    BackoffIsPause(p, 1);
    assert a in Eligible([a], {});
    hide Exchange, Backoff, Millis, Pause;
  }

  lemma QuickForwards(p: Policy, route: RouteConfig, b: Url, status: nat, attempted: set<Url>, now: Instant)
    requires b !in attempted && now < p.totalTimeout
    ensures !Iterate(p, route, Quick(b, status), 2, attempted, now).Stopped?
  {
    assert b in Eligible([b], attempted);
    hide Exchange, Backoff, Choice;
  }

  /** A request can be sent to a second backend exactly when its method may be replayed, there is more than
      one attempt, and the rest permits it. */
  lemma GoesTwiceIff(srv: Server, req: Incoming)
    requires WellFormed(req.headers)
    ensures CanGoTwice(srv, req) <==> Repeatable(srv, req)
  {
    hide HandleLog, RouteFor, ForwardsOf, Repeatable;
    if CanGoTwice(srv, req) {
      var permitFree: bool, turns: seq<Turn>, entered: Instant :|
        && Attempts(srv.policy) <= |turns|
        && (RouteFor(srv, req).Some? ==> HealthyOfRoute(RouteFor(srv, req).value, turns))
        && |ForwardsOf(HandleLog(srv, req, permitFree, turns, entered))| >= 2;
      TwiceIsRepeatable(srv, req, permitFree, turns, entered);
    }
    if Repeatable(srv, req) {
      var turns := RepeatableGoesTwice(srv, req);
    }
  }

  lemma RepeatableGoesTwice(srv: Server, req: Incoming) returns (turns: seq<Turn>)
    requires WellFormed(req.headers) && Repeatable(srv, req)
    ensures |turns| == Attempts(srv.policy) && HealthyOfRoute(RouteFor(srv, req).value, turns)
    ensures |ForwardsOf(HandleLog(srv, req, true, turns, 0))| >= 2
  {
    hide HandleLog, RouteFor, ForwardsOf, RetryLoop, Pause, RetryStatuses, Buffer, Admit, LastStatus, OutcomesOf, TallyOf;
    var p, route := srv.policy, RouteFor(srv, req).value;
    var a, b :| a in route.backends && b in route.backends && a != b;
    var status := RetryStatuses(p, route)[0];
    turns := [Quick(a, status)] + seq(Attempts(p) - 1, _ => Quick(b, status));
    QuickLoopGoesTwice(p, route, a, b, turns);
    AdmitForwards(srv, req, true, RetryLoop(p, route, turns, 1, {}, 0).log);
    HandleByRoute(srv, req, true, turns, 0);
  }

  // ---------------------------------------------------------------------------------------------
  // Permits are not held while forwarding
  // ---------------------------------------------------------------------------------------------

  /** Permits held by a request after the first `k` of its calls. */
  function Held(log: seq<Call>, k: nat): int
    requires k <= |log|
  {
    TallyOf(log[..k]).permitsTaken - TallyOf(log[..k]).permitsReturned
  }

  lemma PrefixWithin(log: seq<Call>, k: nat)
    requires k <= |log|
    ensures TallyOf(log[..k]).permitsTaken <= TallyOf(log).permitsTaken
    ensures TallyOf(log[..k]).permitsReturned <= TallyOf(log).permitsReturned
  {
    CallsSplit(log[..k], log[k..]);
    assert log[..k] + log[k..] == log;
  }

  lemma HeldLater(first: seq<Call>, rest: seq<Call>, k: nat)
    requires k <= |rest|
    ensures Held(first + rest, |first| + k) == Held(first, |first|) + Held(rest, k)
  {
    hide TallyOf;
    CallsSplit(first, rest[..k]);
    assert (first + rest)[..|first| + k] == first + rest[..k];
    assert first[..|first|] == first;
  }

  lemma HoldsNothing(onward: seq<Call>, k: nat)
    requires k <= |onward| && TallyOf(onward).permitsTaken == TallyOf(onward).permitsReturned == 0
    ensures Held(onward, k) == 0
  {
    hide TallyOf;
    PrefixWithin(onward, k);
  }

  lemma TakenAndReturned()
    ensures Held([PermitTaken] + [PermitReturned], 2) == 0
  {
    BothCalls(PermitTaken, PermitReturned);
    hide TallyOf;
    var both := [PermitTaken] + [PermitReturned];
    assert both[..2] == both;
  }

  /** A forward happens with no permit in hand, although the body was buffered under one. */
  lemma AdmitReturnsFirst(srv: Server, req: Incoming, permitFree: bool, onward: seq<Call>, k: nat)
    requires TallyOf(onward).permitsTaken == TallyOf(onward).permitsReturned == 0
    requires var log := Admit(srv, req, permitFree, onward); k < |log| && log[k].Forward?
    ensures Held(Admit(srv, req, permitFree, onward), k) == 0
  {
    hide TallyOf, Held, Buffer;
    assert permitFree && Buffer([], req.body, srv.maxRequestBodyBytes).Body? && k >= 2;
    HeldLater([PermitTaken] + [PermitReturned], onward, k - 2);
    TakenAndReturned();
    HoldsNothing(onward, k - 2);
  }

  lemma RoutedForwardHoldsNothing(srv: Server, route: RouteConfig, req: Incoming, permitFree: bool, turns: seq<Turn>, entered: Instant, k: nat)
    requires Attempts(srv.policy) <= |turns|
    requires var log := AfterRouting(srv, route, req, permitFree, turns, entered); k < |log| && log[k].Forward?
    ensures Held(AfterRouting(srv, route, req, permitFree, turns, entered), k) == 0
  {
    hide TallyOf, RetryLoop, Once, Admit, Choice, Held;
    if ShouldRetryRequest(srv.policy, req.httpMethod) {
      var onward := RetryLoop(srv.policy, route, turns, 1, {}, entered).log;
      LoopAccounts(srv.policy, route, turns, 1, {}, entered);
      AdmitReturnsFirst(srv, req, permitFree, onward, k);
    } else if turns[0].healthy != [] {
      var backend := Choice(route, turns[0].ticket, turns[0].healthy);
      var onward := Once(srv.policy, route, backend, turns[0], entered);
      OnceBalances(srv.policy, route, backend, turns[0], entered);
      if ShouldPrebufferRequest(req.httpMethod) {
        AdmitReturnsFirst(srv, req, permitFree, onward, k);
      } else {
        HoldsNothing(onward, k);
      }
    }
  }

  /** No request ever holds a permit while it is forwarded. */
  lemma ForwardHoldsNothing(srv: Server, req: Incoming, permitFree: bool, turns: seq<Turn>, entered: Instant, k: nat)
    requires Attempts(srv.policy) <= |turns| && WellFormed(req.headers)
    requires var log := HandleLog(srv, req, permitFree, turns, entered); k < |log| && log[k].Forward?
    ensures Held(HandleLog(srv, req, permitFree, turns, entered), k) == 0
  {
    hide TallyOf, AfterRouting, ContentLengthExceeds, MatchRoute, Held;
    assert k >= 1 && req.internal.None? && ContentLengthExceeds(req.headers, srv.maxRequestBodyBytes).None?;
    var route := MatchRoute(req.path, srv.routes);
    assert route.Some?;
    var rest := AfterRouting(srv, route.value, req, permitFree, turns, entered);
    var first: seq<Call> := [Metric(RequestSeen)];
    assert HandleLog(srv, req, permitFree, turns, entered) == first + rest;
    RoutedForwardHoldsNothing(srv, route.value, req, permitFree, turns, entered, k - 1);
    HeldLater(first, rest, k - 1);
    FirstHoldsNothing();
  }

  lemma FirstHoldsNothing()
    ensures Held([Metric(RequestSeen)], 1) == 0
  {
    SingleCall(Metric(RequestSeen));
    var first: seq<Call> := [Metric(RequestSeen)];
    assert first[..1] == first;
  }

  // ---------------------------------------------------------------------------------------------
  // The handler as it is written
  // ---------------------------------------------------------------------------------------------

  /** A request body on its way through the buffer: the permit is held from `TryAcquire` to `Release`. */
  method BufferUnderPermit(srv: Server, body: seq<BodyEvent>, telemetry: Telemetry, semaphore: Semaphore)
      returns (status: Option<nat>)
    requires telemetry.Valid()
    modifies telemetry, semaphore
    ensures telemetry.Valid() && semaphore.available == old(semaphore.available)
    ensures var free, result := old(semaphore.available) > 0, Buffer([], body, srv.maxRequestBodyBytes);
            if free && result.Body? then status == None && telemetry.Counted() == old(telemetry.Counted())
            else
              var (code, kind) := if free then (result.error.Status(), result.error.Kind()) else (503, "buffer_capacity_exceeded");
              status == Some(code) && telemetry.Counted() == Counted(old(telemetry.Counted()), Failure(code, kind))
    ensures status
         == if old(semaphore.available) == 0 then Some(503)
            else match Buffer([], body, srv.maxRequestBodyBytes)
              case Body(_) => None
              case Rejected(TooLarge) => Some(413)
              case Rejected(TimedOut) => Some(408)
              case Rejected(ReadFailed) => Some(400)
    ensures telemetry.proxyErrors
         == if old(semaphore.available) == 0 then Increment(old(telemetry.proxyErrors), "buffer_capacity_exceeded")
            else match Buffer([], body, srv.maxRequestBodyBytes)
              case Body(_) => old(telemetry.proxyErrors)
              case Rejected(TooLarge) => Increment(old(telemetry.proxyErrors), "request_body_too_large")
              case Rejected(TimedOut) => Increment(old(telemetry.proxyErrors), "client_body_timeout")
              case Rejected(ReadFailed) => Increment(old(telemetry.proxyErrors), "client_request_body_read_failed")
  {
    hide Counted, Buffer, Increment;
    var acquired := semaphore.TryAcquire();
    if !acquired {
      Reject(503, "buffer_capacity_exceeded", telemetry);
      return Some(503);
    }
    var result := BufferRequestBody(body, srv.maxRequestBodyBytes);
    match result {
      case Body(_) =>
        semaphore.Release();
        return None;
      case Rejected(error) =>
        Reject(error.Status(), error.Kind(), telemetry);
        semaphore.Release();
        return Some(error.Status());
    }
  }

  /** The same, beside a health manager that reports to the same metrics. */
  method BufferFor(srv: Server, body: seq<BodyEvent>, telemetry: Telemetry, manager: HealthManager, semaphore: Semaphore)
      returns (status: Option<nat>)
    requires manager.Valid() && manager.telemetry == telemetry
    modifies telemetry, semaphore
    ensures manager.Valid() && manager.View() == old(manager.View())
    ensures semaphore.available == old(semaphore.available)
    ensures var free, result := old(semaphore.available) > 0, Buffer([], body, srv.maxRequestBodyBytes);
            if free && result.Body? then status == None && telemetry.Counted() == old(telemetry.Counted())
            else
              var (code, kind) := if free then (result.error.Status(), result.error.Kind()) else (503, "buffer_capacity_exceeded");
              status == Some(code) && telemetry.Counted() == Counted(old(telemetry.Counted()), Failure(code, kind))
  {
    hide Counted, Buffer, Failure;
    status := BufferUnderPermit(srv, body, telemetry, semaphore);
  }

  /** The metrics after a log whose permit calls they do not show. */
  lemma AdmitCounted(c: Counters, srv: Server, req: Incoming, permitFree: bool, onward: seq<Call>)
    ensures Counted(c, Admit(srv, req, permitFree, onward))
         == if !permitFree then Counted(c, Failure(503, "buffer_capacity_exceeded"))
            else match Buffer([], req.body, srv.maxRequestBodyBytes)
              case Body(_) => Counted(c, onward)
              case Rejected(error) => Counted(c, Failure(error.Status(), error.Kind()))
  {
    hide Counted, Buffer, Failure;
    if permitFree {
      var taken: seq<Call> := [PermitTaken];
      CountedNone(c);
      CountedOne(c, [], PermitTaken);
      assert [] + taken == taken;
      match Buffer([], req.body, srv.maxRequestBodyBytes)
      case Body(_) =>
        CountedOne(c, taken, PermitReturned);
        CountedSplits(c, taken + [PermitReturned], onward);
      case Rejected(error) =>
        var failure := Failure(error.Status(), error.Kind());
        CountedSplits(c, taken, failure);
        CountedOne(c, taken + failure, PermitReturned);
    }
  }

  /** The breakers and tickets after a routed request: every exchange is told to the health manager, once. */
  function SharedAfter(srv: Server, settings: CircuitBreaker.Settings, sh: Shared, route: RouteConfig, req: Incoming,
                       permitFree: bool, worlds: seq<World>, entered: Instant): Shared
    requires Attempts(srv.policy) <= |worlds| && ReadingsFit(route, worlds)
  {
    if ShouldRetryRequest(srv.policy, req.httpMethod) then
      if Admitted(srv, req, permitFree) then Final(settings, sh, srv.policy, route, worlds, 1, {}, entered) else sh
    else
      var turn := TurnAt(settings, sh, route, worlds[0]);
      var chosen := Chosen(settings, sh, route, worlds[0], {});
      if turn.healthy == [] || (ShouldPrebufferRequest(req.httpMethod) && !Admitted(srv, req, permitFree)) then chosen
      else Heard(settings, chosen, srv.policy, route, worlds[0], Choice(route, turn.ticket, turn.healthy))
  }

  /** All events at the health manager during a routed request. */
  function RoutedDeeds(srv: Server, settings: CircuitBreaker.Settings, sh: Shared, route: RouteConfig, req: Incoming,
                       permitFree: bool, worlds: seq<World>, entered: Instant): seq<Deed>
    requires Attempts(srv.policy) <= |worlds| && ReadingsFit(route, worlds)
  {
    if ShouldRetryRequest(srv.policy, req.httpMethod) then
      if Admitted(srv, req, permitFree) then Deeds(settings, sh, srv.policy, route, worlds, 1, {}, entered) else []
    else
      var turn := TurnAt(settings, sh, route, worlds[0]);
      AttemptDeeds(srv.policy, route, worlds[0],
        if turn.healthy == [] || (ShouldPrebufferRequest(req.httpMethod) && !Admitted(srv, req, permitFree))
        then Stopped(Stop(503, NoHealthyBackends, "", 0))
        else Returned(Choice(route, turn.ticket, turn.healthy), [], [], Stop(0, LastResponse, "", 0)))
  }

  /** A routed request leaves the breakers as all the events do, and its own outcomes among them are exactly
      those of its log. */
  lemma RequestIsTold(srv: Server, settings: CircuitBreaker.Settings, sh: Shared, route: RouteConfig, req: Incoming,
                      permitFree: bool, worlds: seq<World>, entered: Instant)
    requires Attempts(srv.policy) <= |worlds| && ReadingsFit(route, worlds)
    ensures var deeds := RoutedDeeds(srv, settings, sh, route, req, permitFree, worlds, entered);
            var turns := Turns(settings, sh, srv.policy, route, worlds, 1, {}, entered);
            && SharedAfter(srv, settings, sh, route, req, permitFree, worlds, entered).pool
            == PoolRun(settings, sh.pool, EventsOf(deeds))
            && OwnOutcomes(deeds) == OutcomesOf(AfterRouting(srv, route, req, permitFree, turns, entered))
  {
    var turns := Turns(settings, sh, srv.policy, route, worlds, 1, {}, entered);
    if ShouldRetryRequest(srv.policy, req.httpMethod) {
      hide Turns, Deeds, Final, PoolRun, EventsOf, OwnOutcomes, OutcomesOf, ForwardsOf, LastStatus, RetryLoop, Admit, Buffer,
           ShouldRetryRequest;
      assert turns[0..] == turns;
      OutcomesAreTold(settings, sh, srv.policy, route, worlds, turns, 1, {}, entered);
      AdmitForwards(srv, req, permitFree, RetryLoop(srv.policy, route, turns, 1, {}, entered).log);
      NothingTold(settings, sh.pool);
    } else {
      OnceIsTold(srv, settings, sh, route, req, permitFree, worlds, entered);
      assert turns[0] == TurnAt(settings, sh, route, worlds[0]);
    }
  }

  lemma NothingTold(settings: CircuitBreaker.Settings, m: Breakers)
    ensures PoolRun(settings, m, EventsOf([])) == m && OwnOutcomes([]) == []
  {
  }

  lemma OnceIsTold(srv: Server, settings: CircuitBreaker.Settings, sh: Shared, route: RouteConfig, req: Incoming,
                   permitFree: bool, worlds: seq<World>, entered: Instant)
    requires Attempts(srv.policy) <= |worlds| && ReadingsFit(route, worlds)
    requires !ShouldRetryRequest(srv.policy, req.httpMethod)
    ensures var deeds := RoutedDeeds(srv, settings, sh, route, req, permitFree, worlds, entered);
            && SharedAfter(srv, settings, sh, route, req, permitFree, worlds, entered).pool
            == PoolRun(settings, sh.pool, EventsOf(deeds))
            && OwnOutcomes(deeds) == OutcomesOf(OnceLog(srv, route, req, permitFree, TurnAt(settings, sh, route, worlds[0]), entered))
  {
    var w := worlds[0];
    var turn := TurnAt(settings, sh, route, w);
    TurnReplies(settings, sh, route, w);
    var backend := if turn.healthy == [] then "" else Choice(route, turn.ticket, turn.healthy);
    var stopped := Stopped(Stop(503, NoHealthyBackends, "", 0));
    var returned := Returned(backend, [], [], Stop(0, LastResponse, "", 0));
    AttemptOwns(srv.policy, route, w, stopped);
    AttemptOwns(srv.policy, route, w, returned);
    AttemptLeaves(settings, sh, srv.policy, route, w, {}, stopped);
    AttemptLeaves(settings, sh, srv.policy, route, w, {}, returned);
    hide TurnAt, PoolRun, EventsOf, OwnOutcomes, AttemptDeeds, Heard, Chosen, OutcomesOf, ForwardsOf, LastStatus, Admit, Buffer,
         Failure, Choice, Once, ShouldRetryRequest, ShouldPrebufferRequest;
    if turn.healthy == [] {
      FailureForwardsNothing(503, "no_healthy_backends");
    } else {
      OnceAnswers(srv.policy, route, backend, turn, entered);
      AdmitForwards(srv, req, permitFree, Once(srv.policy, route, backend, turn, entered));
    }
  }

  lemma {:induction false} NobodyAttempted(healthy: seq<Url>)
    ensures Eligible(healthy, {}) == healthy
  {
    if healthy != [] {
      NobodyAttempted(healthy[1..]);
    }
  }

  /** `handle_request` after routing: the three ways of forwarding, on the shared objects. */
  method ForwardRouted(srv: Server, route: RouteConfig, req: Incoming, worlds: seq<World>, entered: Instant,
                       telemetry: Telemetry, manager: HealthManager, balancer: Balancing.LoadBalancer, semaphore: Semaphore)
      returns (status: nat)
    requires Attempts(srv.policy) <= |worlds| && ReadingsFit(route, worlds)
    requires manager.Valid() && manager.telemetry == telemetry && balancer.Valid() && Balances(balancer, route)
    modifies telemetry, semaphore, manager.Objects(), balancer.Objects()
    ensures manager.Valid() && semaphore.available == old(semaphore.available)
    ensures var sh, free := Shared(old(manager.View()), old(balancer.View())), old(semaphore.available) > 0;
            var log := AfterRouting(srv, route, req, free, Turns(manager.settings, sh, srv.policy, route, worlds, 1, {}, entered), entered);
            && telemetry.Counted() == Counted(old(telemetry.Counted()), log)
            && LastStatus(log) == Some(status)
            && Shared(manager.View(), balancer.View()) == SharedAfter(srv, manager.settings, sh, route, req, free, worlds, entered)
  {
    if ShouldRetryRequest(srv.policy, req.httpMethod) {
      status := ForwardReplayed(srv, route, req, worlds, entered, telemetry, manager, balancer, semaphore);
    } else {
      status := ForwardOnce(srv, route, req, worlds, entered, telemetry, manager, balancer, semaphore);
    }
  }

  /** The first way: the body is buffered, and then there may be several attempts. */
  method ForwardReplayed(srv: Server, route: RouteConfig, req: Incoming, worlds: seq<World>, entered: Instant,
                         telemetry: Telemetry, manager: HealthManager, balancer: Balancing.LoadBalancer, semaphore: Semaphore)
      returns (status: nat)
    requires Attempts(srv.policy) <= |worlds| && ReadingsFit(route, worlds)
    requires manager.Valid() && manager.telemetry == telemetry && balancer.Valid() && Balances(balancer, route)
    modifies telemetry, semaphore, manager.Objects(), balancer.Objects()
    ensures manager.Valid() && semaphore.available == old(semaphore.available)
    ensures var sh, free := Shared(old(manager.View()), old(balancer.View())), old(semaphore.available) > 0;
            var run := RetryLoop(srv.policy, route, Turns(manager.settings, sh, srv.policy, route, worlds, 1, {}, entered), 1, {}, entered);
            var log := Admit(srv, req, free, run.log);
            && telemetry.Counted() == Counted(old(telemetry.Counted()), log)
            && LastStatus(log) == Some(status)
            && Shared(manager.View(), balancer.View())
            == if Admitted(srv, req, free) then Final(manager.settings, sh, srv.policy, route, worlds, 1, {}, entered) else sh
  {
    hide Counted, Admit, RetryLoop, Turns, Final, LastStatus, OutcomesOf, Buffer, Failure, HealthManager.Valid, HealthManager.View,
         Balancing.LoadBalancer.View;
    ghost var c, free := telemetry.Counted(), semaphore.available > 0;
    ghost var sh := Shared(manager.View(), balancer.View());
    ghost var turns := Turns(manager.settings, sh, srv.policy, route, worlds, 1, {}, entered);
    ghost var onward := RetryLoop(srv.policy, route, turns, 1, {}, entered);
    AdmitCounted(c, srv, req, free, onward.log);
    AdmitForwards(srv, req, free, onward.log);
    LoopAnswers(srv.policy, route, turns, 1, {}, entered);
    var rejected := BufferFor(srv, req.body, telemetry, manager, semaphore);
    if rejected.Some? {
      return rejected.value;
    }
    ghost var run;
    status, run := ForwardWithRetries(srv.policy, route, worlds, entered, telemetry, manager, balancer);
  }

  /** The other two ways: a single exchange, with the body buffered first or streamed. */
  method ForwardOnce(srv: Server, route: RouteConfig, req: Incoming, worlds: seq<World>, entered: Instant,
                     telemetry: Telemetry, manager: HealthManager, balancer: Balancing.LoadBalancer, semaphore: Semaphore)
      returns (status: nat)
    requires Attempts(srv.policy) <= |worlds| && ReadingsFit(route, worlds)
    requires !ShouldRetryRequest(srv.policy, req.httpMethod)
    requires manager.Valid() && manager.telemetry == telemetry && balancer.Valid() && Balances(balancer, route)
    modifies telemetry, semaphore, manager.Objects(), balancer.Objects()
    ensures manager.Valid() && semaphore.available == old(semaphore.available)
    ensures var sh, free := Shared(old(manager.View()), old(balancer.View())), old(semaphore.available) > 0;
            var log := OnceLog(srv, route, req, free, TurnAt(manager.settings, sh, route, worlds[0]), entered);
            && telemetry.Counted() == Counted(old(telemetry.Counted()), log)
            && LastStatus(log) == Some(status)
            && Shared(manager.View(), balancer.View()) == SharedAfter(srv, manager.settings, sh, route, req, free, worlds, entered)
  {
    hide Counted, Admit, LastStatus, OutcomesOf, ForwardsOf, TallyOf, Plus, Buffer, Failure, Exchange, Choice, TurnAt, Chosen,
         Eligible, Told, Succeeded, AlwaysSafe, IsRetryableMethod,
         PoolRun, PoolStep, HealthManager.Valid, HealthManager.View, Balancing.LoadBalancer.View;
    ghost var c, free := telemetry.Counted(), semaphore.available > 0;
    ghost var turn := TurnAt(manager.settings, Shared(manager.View(), balancer.View()), route, worlds[0]);
    NobodyAttempted(turn.healthy);
    var selected := Ask(route, {}, worlds[0], manager, balancer);
    if selected.None? {
      FailureForwardsNothing(503, "no_healthy_backends");
      FailureIs(503, "no_healthy_backends");
      RejectFor(503, "no_healthy_backends", telemetry, manager);
      return 503;
    }
    var backend := selected.value;
    var at := entered + worlds[0].headDelay;
    OnceAnswers(srv.policy, route, backend, turn, entered);
    if ShouldPrebufferRequest(req.httpMethod) {
      AdmitCounted(c, srv, req, free, Once(srv.policy, route, backend, turn, entered));
      AdmitForwards(srv, req, free, Once(srv.policy, route, backend, turn, entered));
      var rejected := BufferFor(srv, req.body, telemetry, manager, semaphore);
      if rejected.Some? {
        return rejected.value;
      }
    }
    TurnReplies(manager.settings, Shared(old(manager.View()), old(balancer.View())), route, worlds[0]);
    status := ForwardRequest(srv.policy, route, backend, at, worlds[0], at + worlds[0].forwardTime, telemetry, manager);
  }

  lemma FailureIs(status: nat, kind: string)
    ensures Failure(status, kind) == [Metric(ProxyError(kind)), Complete(status)]
  {
  }

  lemma OnceAnswers(p: Policy, route: RouteConfig, backend: Url, turn: Turn, entered: Instant)
    ensures var log := Once(p, route, backend, turn, entered);
            && OutcomesOf(log) == [(backend, Succeeded(p, route, turn.reply))]
            && LastStatus(log) == Some(turn.reply.Status())
  {
    var at := entered + turn.headDelay;
    ExchangeCalls(p, route, backend, at, turn.reply, at + turn.forwardTime);
    var log := Once(p, route, backend, turn, entered);
    assert log[|log| - 1] == Complete(turn.reply.Status());
  }

  /** `handle_request`: the metrics show exactly the calls of the request's log, the client gets the
      response that they counted last, the health manager and the balancer are used as the log says, and
      every permit is back where it was. */
  method HandleRequest(srv: Server, req: Incoming, worlds: seq<World>, entered: Instant,
                       telemetry: Telemetry, manager: HealthManager, balancer: Balancing.LoadBalancer, semaphore: Semaphore)
      returns (status: nat, ghost turns: seq<Turn>)
    requires Attempts(srv.policy) <= |worlds| && WellFormed(req.headers)
    requires RouteFor(srv, req).Some? ==> ReadingsFit(RouteFor(srv, req).value, worlds)
    requires manager.Valid() && manager.telemetry == telemetry
    requires balancer.Valid() && forall r :: r in srv.routes ==> Balances(balancer, r)
    modifies telemetry, semaphore, manager.Objects(), balancer.Objects()
    ensures manager.Valid() && semaphore.available == old(semaphore.available)
    ensures |turns| == Attempts(srv.policy)
    ensures var log := HandleLog(srv, req, old(semaphore.available) > 0, turns, entered);
            && telemetry.Counted() == Counted(old(telemetry.Counted()), log)
            && LastStatus(log) == Some(status)
    ensures var sh, after := Shared(old(manager.View()), old(balancer.View())), Shared(manager.View(), balancer.View());
            match RouteFor(srv, req)
            case None => after == sh
            case Some(route) =>
              && turns == Turns(manager.settings, sh, srv.policy, route, worlds, 1, {}, entered)
              && after == SharedAfter(srv, manager.settings, sh, route, req, old(semaphore.available) > 0, worlds, entered)
  {
    hide Counted, AfterRouting, ContentLengthExceeds, MatchRoute, LastStatus, OutcomesOf, ForwardsOf, TallyOf, Plus, Failure,
         Turns, SharedAfter, Matches, HealthManager.View, HealthManager.PoolValid, Balancing.LoadBalancer.View;
    ghost var c, free := telemetry.Counted(), semaphore.available > 0;
    ghost var first: seq<Call> := [Metric(RequestSeen)];
    turns := seq(Attempts(srv.policy), _ => Turn(0, [], 0, Response(0), 0, 0, 0, 0));
    telemetry.RecordRequest();
    FirstCounted(c, first);
    SingleForwardsNothing(Metric(RequestSeen));

    if req.internal.Some? {
      telemetry.RecordResponseStatus(req.internal.value);
      CompletedCounted(c, first, req.internal.value);
      return req.internal.value, turns;
    }
    if ContentLengthExceeds(req.headers, srv.maxRequestBodyBytes).Some? {
      RejectFor(413, "request_body_too_large", telemetry, manager);
      FailureIs(413, "request_body_too_large");
      CountedSplits(c, first, Failure(413, "request_body_too_large"));
      FailureForwardsNothing(413, "request_body_too_large");
      AppendCalls(first, Failure(413, "request_body_too_large"));
      return 413, turns;
    }
    var route := MatchRoute(req.path, srv.routes);
    if route.None? {
      telemetry.RecordResponseStatus(404);
      CompletedCounted(c, first, 404);
      return 404, turns;
    }
    turns := Turns(manager.settings, Shared(manager.View(), balancer.View()), srv.policy, route.value, worlds, 1, {}, entered);
    CountedSplits(c, first, AfterRouting(srv, route.value, req, free, turns, entered));
    AppendCalls(first, AfterRouting(srv, route.value, req, free, turns, entered));
    status := ForwardRouted(srv, route.value, req, worlds, entered, telemetry, manager, balancer, semaphore);
  }

  lemma FirstCounted(c: Counters, first: seq<Call>)
    requires first == [Metric(RequestSeen)]
    ensures Counted(c, first) == Apply(c, RequestSeen)
  {
    CountedNone(c);
    CountedOne(c, [], Metric(RequestSeen));
    assert [] + first == first;
  }

  lemma CompletedCounted(c: Counters, log: seq<Call>, status: nat)
    ensures Counted(c, log + [Complete(status)]) == Apply(Counted(c, log), ResponseStatus(status))
    ensures LastStatus(log + [Complete(status)]) == Some(status)
  {
    hide Counted, Apply;
    CountedOne(c, log, Complete(status));
    LastStatusOf(log, status);
  }

  // ---------------------------------------------------------------------------------------------
  // Many requests at once
  // ---------------------------------------------------------------------------------------------

  /** The calls of several requests, interleaved: entry `i` of the schedule lets request `schedule[i]`
      make its next call. */
  predicate Fits(traces: seq<seq<Call>>, schedule: seq<nat>)
    decreases |schedule|
  {
    schedule == [] || (schedule[0] < |traces| && traces[schedule[0]] != [] && Fits(Advance(traces, schedule[0]), schedule[1..]))
  }

  function Advance(traces: seq<seq<Call>>, i: nat): seq<seq<Call>>
    requires i < |traces| && traces[i] != []
  {
    traces[i := traces[i][1..]]
  }

  function Merge(traces: seq<seq<Call>>, schedule: seq<nat>): seq<Call>
    requires Fits(traces, schedule)
    decreases |schedule|
  {
    if schedule == [] then []
    else [traces[schedule[0]][0]] + Merge(Advance(traces, schedule[0]), schedule[1..])
  }

  /** What the requests still have to do after the schedule. */
  function Left(traces: seq<seq<Call>>, schedule: seq<nat>): seq<seq<Call>>
    requires Fits(traces, schedule)
    decreases |schedule|
  {
    if schedule == [] then traces else Left(Advance(traces, schedule[0]), schedule[1..])
  }

  function SumOf(traces: seq<seq<Call>>): Tally {
    if traces == [] then NOTHING else Plus(SumOf(traces[..|traces| - 1]), TallyOf(traces[|traces| - 1]))
  }

  lemma {:induction false} SumAdvances(traces: seq<seq<Call>>, i: nat)
    requires i < |traces| && traces[i] != []
    ensures SumOf(traces) == Add(SumOf(Advance(traces, i)), traces[i][0])
  {
    hide TallyOf;
    var n := |traces| - 1;
    if i == n {
      CallsSplit([traces[n][0]], traces[n][1..]);
      SingleCall(traces[n][0]);
      assert [traces[n][0]] + traces[n][1..] == traces[n];
      assert Advance(traces, n)[..n] == traces[..n];
      AddPlus(SumOf(traces[..n]), TallyOf(traces[n][1..]), traces[n][0]);
      AddFirst(TallyOf(traces[n][1..]), traces[n][0]);
    } else {
      SumAdvances(traces[..n], i);
      assert Advance(traces, i)[..n] == Advance(traces[..n], i);
      AddMoves(SumOf(Advance(traces[..n], i)), TallyOf(traces[n]), traces[i][0]);
    }
  }

  lemma AddFirst(t: Tally, c: Call)
    ensures Plus(Add(NOTHING, c), t) == Add(t, c)
  {
  }

  lemma AddMoves(s: Tally, t: Tally, c: Call)
    ensures Plus(Add(s, c), t) == Add(Plus(s, t), c)
  {
  }

  /** Interleaving loses no call and invents none: what has been called and what is left add up to what
      the requests call in all. */
  lemma {:induction false} MergeConserves(traces: seq<seq<Call>>, schedule: seq<nat>)
    requires Fits(traces, schedule)
    ensures Plus(TallyOf(Merge(traces, schedule)), SumOf(Left(traces, schedule))) == SumOf(traces)
    decreases |schedule|
  {
    hide TallyOf, SumOf;
    if schedule == [] {
      NoCalls();
    } else {
      var i := schedule[0];
      var rest := Merge(Advance(traces, i), schedule[1..]);
      MergeConserves(Advance(traces, i), schedule[1..]);
      CallsSplit([traces[i][0]], rest);
      SingleCall(traces[i][0]);
      SumAdvances(traces, i);
      AddFirst(TallyOf(rest), traces[i][0]);
      AddMoves(TallyOf(rest), SumOf(Left(traces, schedule)), traces[i][0]);
    }
  }

  lemma {:induction false} SumBalances(traces: seq<seq<Call>>)
    requires forall i :: 0 <= i < |traces| ==> Balanced(TallyOf(traces[i])) && TallyOf(traces[i]).requests == 1
    ensures var t := SumOf(traces);
            && t.requests == |traces| && t.statuses == t.requests + t.retriesStarted
            && t.latencies == t.forwards == t.outcomes && t.permitsTaken == t.permitsReturned
  {
    if traces != [] {
      SumBalances(traces[..|traces| - 1]);
    }
  }

  lemma {:induction false} NothingLeft(traces: seq<seq<Call>>)
    requires forall i :: 0 <= i < |traces| ==> traces[i] == []
    ensures SumOf(traces) == NOTHING
  {
    hide TallyOf;
    NoCalls();
    if traces != [] {
      assert traces[|traces| - 1] == [];
      NothingLeft(traces[..|traces| - 1]);
    }
  }

  /** What the metrics show is what was called. */
  lemma {:induction false} MetricsShowCalls(c: Counters, log: seq<Call>)
    ensures var t, after := TallyOf(log), Counted(c, log);
            && after.requests == c.requests + t.requests
            && after.latencies == c.latencies + t.latencies
            && Total(after.statuses) == Total(c.statuses) + t.statuses
  {
    if log == [] {
      CountedNone(c);
    } else {
      var front, last := log[..|log| - 1], log[|log| - 1];
      MetricsShowCalls(c, front);
      CountedOne(c, front, last);
      Snoc(front, last);
      assert front + [last] == log;
      if last.Metric? && last.effect.ResponseStatus? {
        IncrementAddsOne(Counted(c, front).statuses, last.effect.status);
      }
    }
  }

  /** The calls of a request, for whatever happens to it. */
  ghost predicate IsRequestTrace(srv: Server, trace: seq<Call>)
  {
    exists req: Incoming, permitFree: bool, turns: seq<Turn>, entered: Instant ::
      Attempts(srv.policy) <= |turns| && WellFormed(req.headers) && trace == HandleLog(srv, req, permitFree, turns, entered)
  }

  /** After any number of completed requests, interleaved in any way: the response counters sum up to
      the requests plus the retries started, and the latency count is the number of forwards, each of
      which the health manager has heard about once. */
  lemma BooksBalance(srv: Server, traces: seq<seq<Call>>, schedule: seq<nat>)
    requires forall i :: 0 <= i < |traces| ==> IsRequestTrace(srv, traces[i])
    requires Fits(traces, schedule)
    requires forall i :: 0 <= i < |Left(traces, schedule)| ==> Left(traces, schedule)[i] == []
    ensures var merged := Merge(traces, schedule);
            var shown := Counted(Counters(0, 0, 0, map[], map[]), merged);
            && shown.requests == |traces|
            && Total(shown.statuses) == shown.requests + TallyOf(merged).retriesStarted
            && shown.latencies == TallyOf(merged).forwards == TallyOf(merged).outcomes
            && TallyOf(merged).permitsTaken == TallyOf(merged).permitsReturned
  {
    hide TallyOf, SumOf, Merge, Left, Fits, Counted, HandleLog, Total;
    forall i | 0 <= i < |traces|
      ensures Balanced(TallyOf(traces[i])) && TallyOf(traces[i]).requests == 1
    {
      assert IsRequestTrace(srv, traces[i]);
      var req: Incoming, permitFree: bool, turns: seq<Turn>, entered: Instant :|
        Attempts(srv.policy) <= |turns| && WellFormed(req.headers) && traces[i] == HandleLog(srv, req, permitFree, turns, entered);
      RequestBalances(srv, req, permitFree, turns, entered);
    }
    SumBalances(traces);
    MergeConserves(traces, schedule);
    NothingLeft(Left(traces, schedule));
    MetricsShowCalls(Counters(0, 0, 0, map[], map[]), Merge(traces, schedule));
    assert Total<nat>(map[]) == 0 by { EmptyTotal(); }
  }

  lemma EmptyTotal()
    ensures Total<nat>(map[]) == 0
  {
  }
}
