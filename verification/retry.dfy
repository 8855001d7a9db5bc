/** The retry engine of `src/http/mod.rs`: attempts, backoff and time budget. The upstream, the
    health manager's answers, the tickets drawn by other requests and every delay are arbitrary. */
module Retry {
  import opened Common
  import opened Configuration
  import opened Balancing
  import opened Metrics

  // ---------------------------------------------------------------------------------------------
  // Replies
  // ---------------------------------------------------------------------------------------------

  datatype UpstreamError =
    | InvalidBackendUrl | InvalidUri | ConnectTimeout | ConnectionRefused
    | InvalidResponse | RequestFailed | ResponseTooLarge
  {
    function Kind(): string {
      match this
      case InvalidBackendUrl => "invalid_backend_url"
      case InvalidUri => "invalid_upstream_uri"
      case ConnectTimeout => "upstream_connect_timeout"
      case ConnectionRefused => "upstream_connection_refused"
      case InvalidResponse => "invalid_upstream_response"
      case RequestFailed => "upstream_request_failed"
      case ResponseTooLarge => "response_body_too_large"
    }
  }

  datatype Reply = Response(status: nat) | Failed(error: UpstreamError) {
    /** The status that the client gets to see. */
    function Status(): nat {
      match this
      case Response(status) => status
      case Failed(error) => if error == ConnectTimeout then 504 else 502
    }
  }

  datatype Policy = Policy(
    maxAttempts: nat,
    totalTimeout: Instant,
    backoffMs: nat,
    retryOnStatuses: seq<nat>,
    retryIdempotentMethods: bool,
    passiveFailureMin: nat,
    passiveFailureMax: nat)

  predicate ShouldRetryStatus(p: Policy, route: RouteConfig, status: nat) {
    status in if route.retryOnStatuses == [] then p.retryOnStatuses else route.retryOnStatuses
  }

  predicate IsPassiveFailure(p: Policy, route: RouteConfig, status: nat) {
    if route.passiveFailureStatuses != [] then status in route.passiveFailureStatuses
    else p.passiveFailureMin <= status <= p.passiveFailureMax
  }

  /** Whether a reply counts as a success of its backend. */
  predicate Succeeded(p: Policy, route: RouteConfig, reply: Reply) {
    reply.Response? && !IsPassiveFailure(p, route, reply.status)
  }

  // ---------------------------------------------------------------------------------------------
  // Backoff
  // ---------------------------------------------------------------------------------------------

  const U64_MAX: nat := TWO_64 - 1

  function Millis(ms: nat): Instant {
    ms * 1_000_000
  }

  function Pow2(n: nat): (r: nat)
    ensures r > 0
  {
    if n == 0 then 1 else 2 * Pow2(n - 1)
  }

  function SaturatingMul(a: nat, b: nat): nat {
    Min(a * b, U64_MAX)
  }

  /** The pause after attempt `attempt`, in milliseconds. */
  function Backoff(p: Policy, attempt: nat): nat
    requires attempt >= 1
  {
    SaturatingMul(p.backoffMs, Pow2(Min(attempt - 1, 10)))
  }

  /** The pauses start at the base, double until the tenth doubling or until they saturate, and never
      get shorter. */
  lemma BackoffDoubles(p: Policy, attempt: nat)
    requires attempt >= 1 && p.backoffMs <= U64_MAX
    ensures Backoff(p, 1) == p.backoffMs
    ensures attempt <= 10 ==> Backoff(p, attempt + 1) == Min(2 * Backoff(p, attempt), U64_MAX)
    ensures attempt > 10 ==> Backoff(p, attempt + 1) == Backoff(p, attempt)
    ensures Backoff(p, attempt) <= Backoff(p, attempt + 1)
  {
    var base, power := p.backoffMs, Pow2(Min(attempt - 1, 10));
    assert Pow2(0) == 1;
    if attempt <= 10 {
      assert Pow2(attempt) == 2 * power;
      assert base * (2 * power) == 2 * (base * power);
      assert base * power >= 0;
    }
  }

  // ---------------------------------------------------------------------------------------------
  // What a request does to the shared objects
  // ---------------------------------------------------------------------------------------------

  datatype Call =
    | Metric(effect: Effect)
    | Forward(backend: Url, at: Instant)     // the request is sent to the backend
    | Outcome(backend: Url, success: bool)   // the health manager is told
    | RetryLogged(attempt: nat)
    | RetryStarted(attempt: nat)
    | PermitTaken
    | PermitReturned

  function Complete(status: nat): Call {
    Metric(ResponseStatus(status))
  }

  /** `forward_request`: one exchange with one backend, `elapsed` after the request started. */
  function Exchange(p: Policy, route: RouteConfig, backend: Url, at: Instant, reply: Reply, elapsed: Instant): seq<Call> {
    [Forward(backend, at), Metric(UpstreamLatency(elapsed / 1_000)), Outcome(backend, Succeeded(p, route, reply))]
    + (if reply.Failed? then [Metric(ProxyError(reply.error.Kind()))] else [])
    + [Complete(reply.Status())]
  }

  /** What the environment does during one attempt. */
  datatype Turn = Turn(
    headDelay: Instant,     // before the budget is checked at the head of the loop
    healthy: seq<Url>,      // the health manager's answer
    ticket: nat,            // the route's counter when this request draws from it
    reply: Reply,
    forwardTime: Instant,
    checkDelay: Instant,    // before the budget is checked after the forward
    backoffDelay: Instant,  // before the remaining budget is computed
    oversleep: Instant)     // by how much the pause exceeds the backoff

  function Eligible(healthy: seq<Url>, attempted: set<Url>): (r: seq<Url>)
    ensures forall b :: b in r <==> b in healthy && b !in attempted
  {
    if healthy == [] then []
    else (if healthy[0] in attempted then [] else [healthy[0]]) + Eligible(healthy[1..], attempted)
  }

  lemma EligibleHead(b: Url, more: seq<Url>, attempted: set<Url>)
    ensures Eligible([b] + more, attempted) == (if b in attempted then [] else [b]) + Eligible(more, attempted)
    ensures Eligible([], attempted) == []
  {
    assert ([b] + more)[1..] == more;
  }

  /** Leaving out what was attempted keeps the order and the repetitions of the rest. */
  lemma {:induction false} EligibleKeepsOrder(healthy: seq<Url>, more: seq<Url>, attempted: set<Url>)
    ensures Eligible(healthy + more, attempted) == Eligible(healthy, attempted) + Eligible(more, attempted)
    ensures forall b :: Eligible([b], attempted) == if b in attempted then [] else [b]
    decreases |healthy|
  {
    hide Eligible;
    forall b ensures Eligible([b], attempted) == if b in attempted then [] else [b] {
      EligibleHead(b, [], attempted);
      assert [b] + [] == [b];
    }
    if healthy == [] {
      EligibleHead("", [], attempted);
      assert healthy + more == more;
    } else {
      var b, rest := healthy[0], healthy[1..];
      EligibleKeepsOrder(rest, more, attempted);
      EligibleHead(b, rest, attempted);
      EligibleHead(b, rest + more, attempted);
      assert healthy == [b] + rest && healthy + more == [b] + (rest + more);
    }
  }

  /** The balancer's choice for a configured route. */
  function Choice(route: RouteConfig, ticket: nat, eligible: seq<Url>): (b: Url)
    requires eligible != []
    ensures b in eligible
    ensures b == eligible[if route.balancing == RoundRobin then ticket % |eligible| else 0]
  {
    var counters: TicketMap := map[route.pathPrefix := Ticketing(route.balancing, ticket)];
    eligible[Position(counters, Request(route.pathPrefix, eligible)).value]
  }

  datatype Ending = LastResponse | BudgetExhausted | NoHealthyBackends | RetryExhausted

  /** A finished run: what the client gets, what was called, when it ended, how long it slept, and when
      the budget was last checked after a forward, if the run ends with that forward's response. */
  datatype Run = Run(status: nat, ending: Ending, log: seq<Call>, finished: Instant, slept: Instant, checked: Option<Instant>)

  function Stop(status: nat, ending: Ending, kind: string, now: Instant): Run {
    Run(status, ending, [Metric(ProxyError(kind)), Complete(status)], now, 0, None)
  }

  function After(log: seq<Call>, slept: Instant, rest: Run): Run {
    rest.(log := log + rest.log, slept := slept + rest.slept)
  }

  function Attempts(p: Policy): nat {
    Max(1, p.maxAttempts)
  }

  /** How an iteration ends: without a forward, with its response, or with another attempt. */
  datatype Iteration =
    | Stopped(run: Run)
    | Returned(backend: Url, exchange: seq<Call>, tail: seq<Call>, run: Run)
    | Again(backend: Url, exchange: seq<Call>, slept: Instant, next: Instant)

  function Iterate(p: Policy, route: RouteConfig, turn: Turn, attempt: nat, attempted: set<Url>, elapsed: Instant): Iteration
    requires attempt >= 1
  {
    var head := elapsed + turn.headDelay;
    if head >= p.totalTimeout then Stopped(Stop(504, BudgetExhausted, "retry_budget_exhausted", head))
    else
      var eligible := Eligible(turn.healthy, attempted);
      if eligible == [] then
        if attempt == 1 then Stopped(Stop(503, NoHealthyBackends, "no_healthy_backends", head))
        else Stopped(Stop(503, RetryExhausted, "retry_exhausted", head))
      else
        var backend := Choice(route, turn.ticket, eligible);
        var replied := head + turn.forwardTime;
        var sent := Exchange(p, route, backend, head, turn.reply, replied);
        var checked := replied + turn.checkDelay;
        if !ShouldRetryStatus(p, route, turn.reply.Status()) || attempt >= p.maxAttempts || checked >= p.totalTimeout
        then Returned(backend, sent, [], Run(turn.reply.Status(), LastResponse, sent, checked, 0, Some(checked)))
        else
          var logged := [RetryLogged(attempt + 1)];
          var pause := Millis(Backoff(p, attempt));
          var ready := checked + turn.backoffDelay;
          if p.backoffMs > 0 && pause >= Max(p.totalTimeout - ready, 0)
          then Returned(backend, sent, logged, Run(turn.reply.Status(), LastResponse, sent + logged, ready, 0, Some(checked)))
          else if p.backoffMs > 0 then Again(backend, sent, pause, ready + pause + turn.oversleep)
          else Again(backend, sent, 0, checked)
  }

  /** The calls of one iteration. */
  function IterationLog(it: Iteration, attempt: nat): seq<Call> {
    match it
    case Stopped(r) => r.log
    case Returned(_, sent, logged, _) => sent + logged
    case Again(_, sent, _, _) => sent + [RetryLogged(attempt + 1)] + [RetryStarted(attempt + 1)]
  }

  /** The loop from attempt `attempt` on, entered `elapsed` after the request started. */
  function RetryLoop(p: Policy, route: RouteConfig, turns: seq<Turn>, attempt: nat, attempted: set<Url>, elapsed: Instant): Run
    requires 1 <= attempt <= Attempts(p) <= |turns|
    decreases Attempts(p) - attempt
  {
    var it := Iterate(p, route, turns[attempt - 1], attempt, attempted, elapsed);
    match it
    case Stopped(run) => run
    case Returned(_, _, _, run) => run
    case Again(backend, _, slept, next) =>
      After(IterationLog(it, attempt), slept,
            RetryLoop(p, route, turns, attempt + 1, attempted + {backend}, next))
  }

  // ---------------------------------------------------------------------------------------------
  // Reading a log
  // ---------------------------------------------------------------------------------------------

  function MetricsOf(log: seq<Call>): seq<Effect> {
    if log == [] then []
    else MetricsOf(log[..|log| - 1]) + if log[|log| - 1].Metric? then [log[|log| - 1].effect] else []
  }

  /** What the health manager is told. */
  function OutcomesOf(log: seq<Call>): seq<(Url, bool)> {
    if log == [] then []
    else
      var last := log[|log| - 1];
      OutcomesOf(log[..|log| - 1]) + if last.Outcome? then [(last.backend, last.success)] else []
  }

  /** The backends that the request was sent to. */
  function ForwardsOf(log: seq<Call>): seq<Url> {
    if log == [] then []
    else
      var last := log[|log| - 1];
      ForwardsOf(log[..|log| - 1]) + if last.Forward? then [last.backend] else []
  }

  /** The status that the last completed response has. */
  function LastStatus(log: seq<Call>): Option<nat> {
    if log == [] then None
    else match log[|log| - 1]
      case Metric(ResponseStatus(status)) => Some(status)
      case _ => LastStatus(log[..|log| - 1])
  }

  /** How often each kind of call occurs. */
  datatype Tally = Tally(
    requests: nat, statuses: nat, latencies: nat, forwards: nat, outcomes: nat,
    retriesLogged: nat, retriesStarted: nat, permitsTaken: nat, permitsReturned: nat)

  const NOTHING := Tally(0, 0, 0, 0, 0, 0, 0, 0, 0)

  function Add(t: Tally, c: Call): Tally {
    match c
    case Metric(RequestSeen) => t.(requests := t.requests + 1)
    case Metric(ResponseStatus(_)) => t.(statuses := t.statuses + 1)
    case Metric(UpstreamLatency(_)) => t.(latencies := t.latencies + 1)
    case Metric(ProxyError(_)) => t
    case Forward(_, _) => t.(forwards := t.forwards + 1)
    case Outcome(_, _) => t.(outcomes := t.outcomes + 1)
    case RetryLogged(_) => t.(retriesLogged := t.retriesLogged + 1)
    case RetryStarted(_) => t.(retriesStarted := t.retriesStarted + 1)
    case PermitTaken => t.(permitsTaken := t.permitsTaken + 1)
    case PermitReturned => t.(permitsReturned := t.permitsReturned + 1)
  }

  function Plus(a: Tally, b: Tally): Tally {
    Tally(a.requests + b.requests, a.statuses + b.statuses, a.latencies + b.latencies,
          a.forwards + b.forwards, a.outcomes + b.outcomes,
          a.retriesLogged + b.retriesLogged, a.retriesStarted + b.retriesStarted,
          a.permitsTaken + b.permitsTaken, a.permitsReturned + b.permitsReturned)
  }

  function TallyOf(log: seq<Call>): Tally {
    if log == [] then NOTHING else Add(TallyOf(log[..|log| - 1]), log[|log| - 1])
  }

  lemma Snoc(log: seq<Call>, c: Call)
    ensures TallyOf(log + [c]) == Add(TallyOf(log), c)
    ensures MetricsOf(log + [c]) == MetricsOf(log) + if c.Metric? then [c.effect] else []
    ensures OutcomesOf(log + [c]) == OutcomesOf(log) + if c.Outcome? then [(c.backend, c.success)] else []
    ensures ForwardsOf(log + [c]) == ForwardsOf(log) + if c.Forward? then [c.backend] else []
  {
    assert (log + [c])[..|log|] == log;
  }

  lemma NoCalls()
    ensures TallyOf([]) == NOTHING && MetricsOf([]) == [] && OutcomesOf([]) == [] && ForwardsOf([]) == []
  {
  }

  lemma {:induction false} LastStatusSplits(a: seq<Call>, b: seq<Call>)
    ensures LastStatus(a + b) == if LastStatus(b).Some? then LastStatus(b) else LastStatus(a)
  {
    if b == [] {
      assert a + b == a;
    } else {
      LastStatusSplits(a, b[..|b| - 1]);
      assert (a + b)[..|a + b| - 1] == a + b[..|b| - 1];
    }
  }

  lemma LastStatusOf(log: seq<Call>, status: nat)
    ensures LastStatus(log + [Complete(status)]) == Some(status)
    ensures forall k: nat :: LastStatus(log + [Complete(status)] + [RetryLogged(k)]) == Some(status)
  {
    forall k: nat ensures LastStatus(log + [Complete(status)] + [RetryLogged(k)]) == Some(status) {
      var all := log + [Complete(status)] + [RetryLogged(k)];
      assert all[..|all| - 1] == log + [Complete(status)];
    }
  }

  lemma AddPlus(s: Tally, t: Tally, c: Call)
    ensures Add(Plus(s, t), c) == Plus(s, Add(t, c))
    ensures Plus(s, NOTHING) == s
  {
  }

  lemma {:induction false} CallsSplit(a: seq<Call>, b: seq<Call>)
    ensures MetricsOf(a + b) == MetricsOf(a) + MetricsOf(b)
    ensures OutcomesOf(a + b) == OutcomesOf(a) + OutcomesOf(b)
    ensures ForwardsOf(a + b) == ForwardsOf(a) + ForwardsOf(b)
    ensures TallyOf(a + b) == Plus(TallyOf(a), TallyOf(b))
  {
    hide MetricsOf, OutcomesOf, ForwardsOf, TallyOf, Add, Plus;
    if b == [] {
      assert a + b == a;
      NoCalls();
      AddPlus(TallyOf(a), NOTHING, RetryStarted(0));
    } else {
      var front, last := b[..|b| - 1], b[|b| - 1];
      CallsSplit(a, front);
      Snoc(a + front, last);
      Snoc(front, last);
      AddPlus(TallyOf(a), TallyOf(front), last);
      assert a + b == a + front + [last] && b == front + [last];
    }
  }

  /** An exchange forwards once, tells the health manager once and completes once. */
  lemma ExchangeCalls(p: Policy, route: RouteConfig, backend: Url, at: Instant, reply: Reply, elapsed: Instant)
    ensures var log := Exchange(p, route, backend, at, reply, elapsed);
            && ForwardsOf(log) == [backend]
            && OutcomesOf(log) == [(backend, Succeeded(p, route, reply))]
            && TallyOf(log) == NOTHING.(statuses := 1, latencies := 1, forwards := 1, outcomes := 1)
  {
    hide MetricsOf, OutcomesOf, ForwardsOf, TallyOf, Succeeded;
    NoCalls();
    var a: seq<Call> := [];
    var b := a + [Forward(backend, at)];
    Snoc(a, Forward(backend, at));
    var c := b + [Metric(UpstreamLatency(elapsed / 1_000))];
    Snoc(b, Metric(UpstreamLatency(elapsed / 1_000)));
    var d := c + [Outcome(backend, Succeeded(p, route, reply))];
    Snoc(c, Outcome(backend, Succeeded(p, route, reply)));
    var e := d;
    if reply.Failed? {
      e := d + [Metric(ProxyError(reply.error.Kind()))];
      Snoc(d, Metric(ProxyError(reply.error.Kind())));
    }
    Snoc(e, Complete(reply.Status()));
    assert e + [Complete(reply.Status())] == Exchange(p, route, backend, at, reply, elapsed);
  }

  lemma PairCalls(x: Call, y: Call)
    ensures TallyOf([x, y]) == Add(Add(NOTHING, x), y)
    ensures !x.Forward? && !y.Forward? ==> ForwardsOf([x, y]) == []
    ensures !x.Outcome? && !y.Outcome? ==> OutcomesOf([x, y]) == []
    ensures !x.Metric? && !y.Metric? ==> MetricsOf([x, y]) == []
  {
    NoCalls();
    Snoc([], x);
    Snoc([x], y);
    assert [x] + [y] == [x, y] && [] + [x] == [x];
  }

  // ---------------------------------------------------------------------------------------------
  // What the metrics show
  // ---------------------------------------------------------------------------------------------

  /** The metrics after the calls of a log. */
  ghost function Counted(c: Counters, log: seq<Call>): Counters {
    ApplyAll(c, MetricsOf(log))
  }

  lemma CountedSplits(c: Counters, a: seq<Call>, b: seq<Call>)
    ensures Counted(c, a + b) == Counted(Counted(c, a), b)
  {
    CallsSplit(a, b);
    ApplySplits(c, MetricsOf(a), MetricsOf(b));
  }

  lemma CountedOne(c: Counters, log: seq<Call>, call: Call)
    ensures Counted(c, log + [call]) == if call.Metric? then Apply(Counted(c, log), call.effect) else Counted(c, log)
  {
    Snoc(log, call);
    var m := MetricsOf(log);
    if call.Metric? {
      assert (m + [call.effect])[..|m|] == m;
    } else {
      assert m + [] == m;
    }
  }

  lemma CountedNone(c: Counters)
    ensures Counted(c, []) == c
  {
  }

  /** `run` is what a loop that has already made the calls `log` and slept `slept` still has to do. */
  ghost predicate Ahead(run: Run, log: seq<Call>, slept: Instant,
                        p: Policy, route: RouteConfig, turns: seq<Turn>, attempt: nat, attempted: set<Url>, elapsed: Instant)
    requires 1 <= attempt <= Attempts(p) <= |turns|
  {
    run == After(log, slept, RetryLoop(p, route, turns, attempt, attempted, elapsed))
  }

  lemma IterationEnds(p: Policy, route: RouteConfig, turn: Turn, attempt: nat, attempted: set<Url>, elapsed: Instant)
    requires attempt >= 1
    ensures match Iterate(p, route, turn, attempt, attempted, elapsed)
            case Stopped(_) => true
            case Returned(_, sent, logged, r) => r.log == sent + logged
            case Again(_, _, _, _) => attempt < p.maxAttempts
  {
    hide Exchange, Choice, Eligible, Backoff, ShouldRetryStatus, Succeeded;
    var it := Iterate(p, route, turn, attempt, attempted, elapsed);
    if it.Returned? {
      assert it.exchange + [] == it.exchange;
    }
  }

  lemma AfterTwice(log: seq<Call>, own: seq<Call>, slept: Instant, pause: Instant, rest: Run)
    ensures After(log, slept, After(own, pause, rest)) == After(log + own, slept + pause, rest)
  {
    assert log + (own + rest.log) == log + own + rest.log;
  }

  lemma Unroll(run: Run, log: seq<Call>, slept: Instant,
               p: Policy, route: RouteConfig, turns: seq<Turn>, attempt: nat, attempted: set<Url>, elapsed: Instant)
    requires 1 <= attempt <= Attempts(p) <= |turns|
    requires Ahead(run, log, slept, p, route, turns, attempt, attempted, elapsed)
    ensures var it := Iterate(p, route, turns[attempt - 1], attempt, attempted, elapsed);
            var longer := log + IterationLog(it, attempt);
            match it
            case Stopped(r) => run.status == r.status && run.log == longer
            case Returned(_, _, _, r) => run.status == r.status && run.log == longer
            case Again(backend, _, pause, next) =>
              attempt < p.maxAttempts
              && Ahead(run, longer, slept + pause, p, route, turns, attempt + 1, attempted + {backend}, next)
  {
    IterationEnds(p, route, turns[attempt - 1], attempt, attempted, elapsed);
    var it := Iterate(p, route, turns[attempt - 1], attempt, attempted, elapsed);
    hide Iterate;
    if it.Again? {
      AfterTwice(log, IterationLog(it, attempt), slept, it.slept,
                 RetryLoop(p, route, turns, attempt + 1, attempted + {it.backend}, it.next));
      hide IterationLog, After;
    }
  }

  lemma NothingYet(c: Counters, run: Run)
    ensures run == After([], 0, run) && Counted(c, []) == c && OutcomesOf([]) == []
  {
    assert [] + run.log == run.log;
  }

  /** Appending a segment to a log appends what it says. */
  lemma Finish(c: Counters, log: seq<Call>, segment: seq<Call>)
    ensures Counted(c, log + segment) == Counted(Counted(c, log), segment)
    ensures OutcomesOf(log + segment) == OutcomesOf(log) + OutcomesOf(segment)
  {
    CountedSplits(c, log, segment);
    CallsSplit(log, segment);
  }

  /** Log lines about retries change neither the metrics nor the health manager. */
  lemma SilentCalls(c: Counters, log: seq<Call>, line: Call)
    requires line.RetryLogged? || line.RetryStarted?
    ensures Counted(c, log + [line]) == Counted(c, log)
    ensures OutcomesOf(log + [line]) == OutcomesOf(log)
  {
    CountedOne(c, log, line);
    Snoc(log, line);
    assert OutcomesOf(log) + [] == OutcomesOf(log);
  }
}
