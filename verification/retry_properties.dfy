/** What the retry loop guarantees, for every behaviour of its environment. */
module RetryProperties {
  import opened Common
  import opened Configuration
  import opened Metrics
  import opened Retry

  // ---------------------------------------------------------------------------------------------
  // One step of the recursion
  // ---------------------------------------------------------------------------------------------

  lemma IterationCalls(p: Policy, route: RouteConfig, turn: Turn, attempt: nat, attempted: set<Url>, elapsed: Instant)
    requires attempt >= 1
    ensures var it := Iterate(p, route, turn, attempt, attempted, elapsed);
            var log := IterationLog(it, attempt);
            match it
            case Stopped(run) =>
              ForwardsOf(log) == [] && OutcomesOf(log) == [] && TallyOf(log) == NOTHING.(statuses := 1)
            case Returned(b, _, logged, run) =>
              && b in turn.healthy && b !in attempted
              && run.log == log && ForwardsOf(log) == [b] && OutcomesOf(log) == [(b, Succeeded(p, route, turn.reply))]
              && TallyOf(log)
              == NOTHING.(statuses := 1, latencies := 1, forwards := 1, outcomes := 1, retriesLogged := |logged|)
            case Again(b, _, _, _) =>
              && b in turn.healthy && b !in attempted
              && ForwardsOf(log) == [b] && OutcomesOf(log) == [(b, Succeeded(p, route, turn.reply))]
              && TallyOf(log)
              == NOTHING.(statuses := 1, latencies := 1, forwards := 1, outcomes := 1, retriesLogged := 1, retriesStarted := 1)
  {
    hide MetricsOf, OutcomesOf, ForwardsOf, TallyOf, Exchange, Choice, Backoff, ShouldRetryStatus, Succeeded, Stop, Eligible, Max;
    var it := Iterate(p, route, turn, attempt, attempted, elapsed);
    match it
    case Stopped(run) =>
      var head := elapsed + turn.headDelay;
      if head >= p.totalTimeout {
        StopCalls(504, BudgetExhausted, "retry_budget_exhausted", head);
      } else if attempt == 1 {
        StopCalls(503, NoHealthyBackends, "no_healthy_backends", head);
      } else {
        StopCalls(503, RetryExhausted, "retry_exhausted", head);
      }
    case Returned(b, sent, logged, run) =>
      ExchangeAndLogged(p, route, turn, b, elapsed + turn.headDelay, logged, attempt);
    case Again(b, sent, _, _) =>
      ExchangeAndRetry(p, route, turn, b, elapsed + turn.headDelay, attempt);
  }

  lemma StopCalls(status: nat, ending: Ending, kind: string, now: Instant)
    ensures var log := Stop(status, ending, kind, now).log;
            ForwardsOf(log) == [] && OutcomesOf(log) == [] && TallyOf(log) == NOTHING.(statuses := 1)
  {
    PairCalls(Metric(ProxyError(kind)), Complete(status));
  }

  lemma ExchangeAndLogged(p: Policy, route: RouteConfig, turn: Turn, b: Url, head: Instant, logged: seq<Call>, attempt: nat)
    requires logged == [] || logged == [RetryLogged(attempt + 1)]
    ensures var log := Exchange(p, route, b, head, turn.reply, head + turn.forwardTime) + logged;
            && ForwardsOf(log) == [b] && OutcomesOf(log) == [(b, Succeeded(p, route, turn.reply))]
            && TallyOf(log)
            == NOTHING.(statuses := 1, latencies := 1, forwards := 1, outcomes := 1, retriesLogged := |logged|)
  {
    hide MetricsOf, OutcomesOf, ForwardsOf, TallyOf, Exchange, Succeeded;
    ExchangeCalls(p, route, b, head, turn.reply, head + turn.forwardTime);
    var sent := Exchange(p, route, b, head, turn.reply, head + turn.forwardTime);
    if logged == [] {
      assert sent + logged == sent;
    } else {
      Snoc(sent, RetryLogged(attempt + 1));
    }
  }

  lemma ExchangeAndRetry(p: Policy, route: RouteConfig, turn: Turn, b: Url, head: Instant, attempt: nat)
    ensures var log := Exchange(p, route, b, head, turn.reply, head + turn.forwardTime)
                       + [RetryLogged(attempt + 1)] + [RetryStarted(attempt + 1)];
            && ForwardsOf(log) == [b] && OutcomesOf(log) == [(b, Succeeded(p, route, turn.reply))]
            && TallyOf(log)
            == NOTHING.(statuses := 1, latencies := 1, forwards := 1, outcomes := 1, retriesLogged := 1, retriesStarted := 1)
  {
    hide MetricsOf, OutcomesOf, ForwardsOf, TallyOf, Exchange, Succeeded;
    var sent := Exchange(p, route, b, head, turn.reply, head + turn.forwardTime);
    ExchangeAndLogged(p, route, turn, b, head, [RetryLogged(attempt + 1)], attempt);
    Snoc(sent + [RetryLogged(attempt + 1)], RetryStarted(attempt + 1));
  }

  /** The rest of a run that goes on. */
  function Rest(p: Policy, route: RouteConfig, turns: seq<Turn>, attempt: nat, attempted: set<Url>, elapsed: Instant): Run
    requires 1 <= attempt < Attempts(p) <= |turns|
    requires Iterate(p, route, turns[attempt - 1], attempt, attempted, elapsed).Again?
  {
    var it := Iterate(p, route, turns[attempt - 1], attempt, attempted, elapsed);
    RetryLoop(p, route, turns, attempt + 1, attempted + {it.backend}, it.next)
  }

  lemma LoopCalls(p: Policy, route: RouteConfig, turns: seq<Turn>, attempt: nat, attempted: set<Url>, elapsed: Instant)
    requires 1 <= attempt <= Attempts(p) <= |turns|
    ensures var run := RetryLoop(p, route, turns, attempt, attempted, elapsed);
            var it := Iterate(p, route, turns[attempt - 1], attempt, attempted, elapsed);
            match it
            case Stopped(r) => run == r && ForwardsOf(run.log) == [] && OutcomesOf(run.log) == []
                               && TallyOf(run.log) == NOTHING.(statuses := 1)
            case Returned(b, _, logged, r) =>
              && run == r && b in turns[attempt - 1].healthy && b !in attempted
              && ForwardsOf(run.log) == [b]
              && OutcomesOf(run.log) == [(b, Succeeded(p, route, turns[attempt - 1].reply))]
              && TallyOf(run.log)
              == NOTHING.(statuses := 1, latencies := 1, forwards := 1, outcomes := 1, retriesLogged := |logged|)
            case Again(b, _, slept, _) =>
              && attempt < p.maxAttempts && b in turns[attempt - 1].healthy && b !in attempted
              && var rest := Rest(p, route, turns, attempt, attempted, elapsed);
                 && run.status == rest.status && run.ending == rest.ending && run.finished == rest.finished
                 && run.slept == slept + rest.slept && run.checked == rest.checked
                 && ForwardsOf(run.log) == [b] + ForwardsOf(rest.log)
                 && OutcomesOf(run.log) == [(b, Succeeded(p, route, turns[attempt - 1].reply))] + OutcomesOf(rest.log)
                 && TallyOf(run.log)
                 == Plus(NOTHING.(statuses := 1, latencies := 1, forwards := 1, outcomes := 1, retriesLogged := 1, retriesStarted := 1),
                         TallyOf(rest.log))
  {
    hide MetricsOf, OutcomesOf, ForwardsOf, TallyOf, IterationLog;
    IterationCalls(p, route, turns[attempt - 1], attempt, attempted, elapsed);
    var it := Iterate(p, route, turns[attempt - 1], attempt, attempted, elapsed);
    match it
    case Stopped(r) =>
      assert IterationLog(it, attempt) == r.log by { StoppedLog(r, attempt); }
    case Returned(_, _, _, _) =>
    case Again(_, _, _, _) =>
      CallsSplit(IterationLog(it, attempt), Rest(p, route, turns, attempt, attempted, elapsed).log);
  }

  lemma LoopForwardsOnce(p: Policy, route: RouteConfig, turns: seq<Turn>, attempt: nat, attempted: set<Url>, elapsed: Instant)
    requires 1 <= attempt <= Attempts(p) <= |turns|
    requires !Iterate(p, route, turns[attempt - 1], attempt, attempted, elapsed).Stopped?
    ensures |ForwardsOf(RetryLoop(p, route, turns, attempt, attempted, elapsed).log)| >= 1
  {
    hide Iterate, RetryLoop, ForwardsOf, OutcomesOf, TallyOf, Plus, Succeeded;
    LoopCalls(p, route, turns, attempt, attempted, elapsed);
  }

  lemma StoppedLog(r: Run, attempt: nat)
    ensures IterationLog(Stopped(r), attempt) == r.log
  {
  }

  // ---------------------------------------------------------------------------------------------
  // Which backends are tried
  // ---------------------------------------------------------------------------------------------

  lemma {:induction false} LoopForwards(p: Policy, route: RouteConfig, turns: seq<Turn>, attempt: nat, attempted: set<Url>, elapsed: Instant)
    requires 1 <= attempt <= Attempts(p) <= |turns|
    ensures var run := RetryLoop(p, route, turns, attempt, attempted, elapsed);
            var tried := ForwardsOf(run.log);
            && attempt - 1 + |tried| <= Attempts(p)
            && (forall i :: 0 <= i < |tried| ==> tried[i] in turns[attempt - 1 + i].healthy && tried[i] !in attempted)
            && (forall i, j :: 0 <= i < j < |tried| ==> tried[i] != tried[j])
    decreases Attempts(p) - attempt
  {
    hide Iterate, RetryLoop, ForwardsOf, OutcomesOf, TallyOf;
    LoopCalls(p, route, turns, attempt, attempted, elapsed);
    var it := Iterate(p, route, turns[attempt - 1], attempt, attempted, elapsed);
    if it.Again? {
      LoopForwards(p, route, turns, attempt + 1, attempted + {it.backend}, it.next);
      var rest := ForwardsOf(Rest(p, route, turns, attempt, attempted, elapsed).log);
      var tried := [it.backend] + rest;
      forall i | 0 <= i < |tried| ensures tried[i] in turns[attempt - 1 + i].healthy && tried[i] !in attempted {
        assert i > 0 ==> tried[i] == rest[i - 1] && turns[attempt - 1 + i] == turns[attempt + (i - 1)];
      }
    }
  }

  ghost predicate Distinct<T>(s: seq<T>) {
    forall i, j :: 0 <= i < j < |s| ==> s[i] != s[j]
  }

  lemma {:induction false} DistinctFit<T>(s: seq<T>, pool: set<T>)
    requires Distinct(s) && forall i :: 0 <= i < |s| ==> s[i] in pool
    ensures |s| <= |pool|
    decreases |s|
  {
    if s != [] {
      var last := s[|s| - 1];
      DistinctFit(s[..|s| - 1], pool - {last});
    }
  }

  /** No backend is tried twice, and the tries are bounded by the attempts and by the route's distinct
      backends; each goes to a backend that was healthy at the time. */
  lemma NoBackendTwice(p: Policy, route: RouteConfig, turns: seq<Turn>, entered: Instant)
    requires Attempts(p) <= |turns|
    requires forall k, b :: 0 <= k < |turns| && b in turns[k].healthy ==> b in route.backends
    ensures var tried := ForwardsOf(RetryLoop(p, route, turns, 1, {}, entered).log);
            && Distinct(tried)
            && |tried| <= Min(Attempts(p), |set b | b in route.backends|)
            && forall i :: 0 <= i < |tried| ==> tried[i] in turns[i].healthy
  {
    LoopForwards(p, route, turns, 1, {}, entered);
    DistinctFit(ForwardsOf(RetryLoop(p, route, turns, 1, {}, entered).log), set b | b in route.backends);
  }

  // ---------------------------------------------------------------------------------------------
  // What the client gets
  // ---------------------------------------------------------------------------------------------

  /** The statuses on which requests of the route are retried. */
  function RetryStatuses(p: Policy, route: RouteConfig): seq<nat> {
    if route.retryOnStatuses == [] then p.retryOnStatuses else route.retryOnStatuses
  }

  /** The powers of two up to the tenth. */
  const DOUBLINGS := [1, 2, 4, 8, 16, 32, 64, 128, 256, 512, 1024]

  /** The pause after attempt `k`, in nanoseconds. */
  function Pause(p: Policy, k: nat): nat
    requires k >= 1
  {
    Min(p.backoffMs * DOUBLINGS[Min(k - 1, 10)], 0xFFFF_FFFF_FFFF_FFFF) * 1_000_000
  }

  lemma BackoffIsPause(p: Policy, k: nat)
    requires k >= 1
    ensures Millis(Backoff(p, k)) == Pause(p, k)
    ensures p.backoffMs == 0 ==> Pause(p, k) == 0
  {
    DoublingsArePowers(Min(k - 1, 10));
  }

  lemma DoublingsArePowers(n: nat)
    requires n <= 10
    ensures Pow2(n) == DOUBLINGS[n]
  {
    if n > 0 {
      DoublingsArePowers(n - 1);
      assert DOUBLINGS[n] == 2 * DOUBLINGS[n - 1];
    }
  }

  /** Whether the loop could still have made another attempt after `tried` of them: the budget at
      `now` must leave room for the pause. */
  predicate AnotherFits(p: Policy, tried: nat, now: Instant)
    requires tried >= 1
  {
    && tried < p.maxAttempts
    && now < p.totalTimeout
    && now + Pause(p, tried) < p.totalTimeout
  }

  /** What the client sees of a reply. */
  function SeenStatus(reply: Reply): nat {
    match reply
    case Response(status) => status
    case Failed(ConnectTimeout) => 504
    case Failed(_) => 502
  }

  ghost predicate EndsRightly(p: Policy, route: RouteConfig, turns: seq<Turn>, before: nat, attempted: set<Url>, run: Run)
    requires before < Attempts(p) <= |turns|
  {
    var tried := ForwardsOf(run.log);
    var total := before + |tried|;
    && total <= Attempts(p)
    && (forall i :: before <= i < total - 1 ==> SeenStatus(turns[i].reply) in RetryStatuses(p, route))
    && (run.ending != LastResponse && |tried| > 0 ==> SeenStatus(turns[total - 1].reply) in RetryStatuses(p, route))
    && match run.ending
       case LastResponse =>
         && |tried| > 0 && run.status == SeenStatus(turns[total - 1].reply)
         && (run.status in RetryStatuses(p, route) ==> !AnotherFits(p, total, run.finished))
       case BudgetExhausted => run.status == 504 && run.finished >= p.totalTimeout
       case NoHealthyBackends =>
         run.status == 503 && total == 0 && forall b :: b in turns[0].healthy ==> b in attempted
       case RetryExhausted =>
         && run.status == 503 && 0 < total < Attempts(p)
         && forall b :: b in turns[total].healthy ==> b in attempted || b in tried
  }

  lemma {:induction false} LoopEnds(p: Policy, route: RouteConfig, turns: seq<Turn>, attempt: nat, attempted: set<Url>, elapsed: Instant)
    requires 1 <= attempt <= Attempts(p) <= |turns|
    ensures EndsRightly(p, route, turns, attempt - 1, attempted, RetryLoop(p, route, turns, attempt, attempted, elapsed))
    decreases Attempts(p) - attempt
  {
    hide RetryLoop, ForwardsOf, OutcomesOf, TallyOf, Exchange, Choice;
    LoopCalls(p, route, turns, attempt, attempted, elapsed);
    var it := Iterate(p, route, turns[attempt - 1], attempt, attempted, elapsed);
    if it.Again? {
      LoopEnds(p, route, turns, attempt + 1, attempted + {it.backend}, it.next);
      AgainIsRetryable(p, route, turns[attempt - 1], attempt, attempted, elapsed);
      var rest := Rest(p, route, turns, attempt, attempted, elapsed);
      EndsLonger(p, route, turns, attempt, attempted, it.backend,
                 RetryLoop(p, route, turns, attempt, attempted, elapsed), rest);
    } else {
      EndsAtOnce(p, route, turns, attempt, attempted, elapsed);
    }
  }

  lemma AgainIsRetryable(p: Policy, route: RouteConfig, turn: Turn, attempt: nat, attempted: set<Url>, elapsed: Instant)
    requires attempt >= 1 && Iterate(p, route, turn, attempt, attempted, elapsed).Again?
    ensures SeenStatus(turn.reply) in RetryStatuses(p, route) && attempt < p.maxAttempts
  {
  }

  lemma EndsLonger(p: Policy, route: RouteConfig, turns: seq<Turn>, attempt: nat, attempted: set<Url>, b: Url, run: Run, rest: Run)
    requires 1 <= attempt < Attempts(p) <= |turns|
    requires EndsRightly(p, route, turns, attempt, attempted + {b}, rest)
    requires SeenStatus(turns[attempt - 1].reply) in RetryStatuses(p, route)
    requires run.status == rest.status && run.ending == rest.ending && run.finished == rest.finished
    requires ForwardsOf(run.log) == [b] + ForwardsOf(rest.log)
    ensures EndsRightly(p, route, turns, attempt - 1, attempted, run)
  {
    hide ForwardsOf, RetryStatuses, AnotherFits;
  }

  lemma EndsAtOnce(p: Policy, route: RouteConfig, turns: seq<Turn>, attempt: nat, attempted: set<Url>, elapsed: Instant)
    requires 1 <= attempt <= Attempts(p) <= |turns|
    requires !Iterate(p, route, turns[attempt - 1], attempt, attempted, elapsed).Again?
    ensures EndsRightly(p, route, turns, attempt - 1, attempted, RetryLoop(p, route, turns, attempt, attempted, elapsed))
  {
    hide RetryLoop, ForwardsOf, OutcomesOf, TallyOf, Exchange, Choice, Backoff, Pause;
    BackoffIsPause(p, attempt);
    LoopCalls(p, route, turns, attempt, attempted, elapsed);
  }

  /** Every reply before the last was retryable, and the client gets the last one, unless the budget
      ran out before a forward (504), no backend was healthy to begin with (503), or every backend
      that is still healthy has been tried (503). A retryable last reply is only returned when no
      further attempt fits the attempts and the budget. */
  lemma ResultIsDictated(p: Policy, route: RouteConfig, turns: seq<Turn>, entered: Instant)
    requires Attempts(p) <= |turns|
    ensures EndsRightly(p, route, turns, 0, {}, RetryLoop(p, route, turns, 1, {}, entered))
  {
    LoopEnds(p, route, turns, 1, {}, entered);
  }

  /** What the client gets is what the metrics counted last. */
  lemma {:induction false} LoopAnswers(p: Policy, route: RouteConfig, turns: seq<Turn>, attempt: nat, attempted: set<Url>, elapsed: Instant)
    requires 1 <= attempt <= Attempts(p) <= |turns|
    ensures var run := RetryLoop(p, route, turns, attempt, attempted, elapsed);
            LastStatus(run.log) == Some(run.status)
    decreases Attempts(p) - attempt
  {
    hide Iterate, LastStatus, IterationLog;
    var it := Iterate(p, route, turns[attempt - 1], attempt, attempted, elapsed);
    if it.Again? {
      AgainIsRetryable(p, route, turns[attempt - 1], attempt, attempted, elapsed);
      LoopAnswers(p, route, turns, attempt + 1, attempted + {it.backend}, it.next);
      LastStatusSplits(IterationLog(it, attempt), Rest(p, route, turns, attempt, attempted, elapsed).log);
    } else {
      IterationAnswers(p, route, turns[attempt - 1], attempt, attempted, elapsed);
    }
  }

  lemma IterationAnswers(p: Policy, route: RouteConfig, turn: Turn, attempt: nat, attempted: set<Url>, elapsed: Instant)
    requires attempt >= 1
    ensures match Iterate(p, route, turn, attempt, attempted, elapsed)
            case Again(_, _, _, _) => true
            case Stopped(run) => LastStatus(run.log) == Some(run.status)
            case Returned(_, _, _, run) => LastStatus(run.log) == Some(run.status)
  {
    hide LastStatus, Choice, Eligible, Backoff, ShouldRetryStatus, Succeeded, Exchange;
    match Iterate(p, route, turn, attempt, attempted, elapsed)
    case Again(_, _, _, _) =>
    case Stopped(run) =>
      LastStatusOf([run.log[0]], run.status);
      assert run.log == [run.log[0]] + [Complete(run.status)];
    case Returned(_, sent, logged, run) =>
      var front := ExchangeEnds(p, route, sent, turn, run.status, logged, attempt, attempted, elapsed);
      LastStatusOf(front, run.status);
      assert logged == [] ==> run.log == front + [Complete(run.status)];
  }

  lemma ExchangeEnds(p: Policy, route: RouteConfig, sent: seq<Call>, turn: Turn, status: nat, logged: seq<Call>,
                     attempt: nat, attempted: set<Url>, elapsed: Instant) returns (front: seq<Call>)
    requires attempt >= 1
    requires var it := Iterate(p, route, turn, attempt, attempted, elapsed);
             it.Returned? && it.exchange == sent && it.run.status == status && it.tail == logged
    ensures sent == front + [Complete(status)]
  {
    hide Choice, Eligible, Backoff, ShouldRetryStatus, Succeeded;
    front := sent[..|sent| - 1];
  }

  // ---------------------------------------------------------------------------------------------
  // The time budget
  // ---------------------------------------------------------------------------------------------

  lemma IterationTimes(p: Policy, route: RouteConfig, turn: Turn, attempt: nat, attempted: set<Url>, elapsed: Instant)
    requires attempt >= 1
    ensures var it := Iterate(p, route, turn, attempt, attempted, elapsed);
            && (forall c :: c in IterationLog(it, attempt) && c.Forward? ==> elapsed <= c.at < p.totalTimeout)
            && (it.Again? ==> attempt < p.maxAttempts && elapsed + it.slept <= it.next)
            && (it.Again? && it.slept > 0 ==> elapsed + it.slept < p.totalTimeout)
            && (it.Stopped? ==> it.run.slept == 0)
            && (it.Returned? ==> it.run.slept == 0 && it.run.log == IterationLog(it, attempt))
  {
    hide Choice, Backoff, Eligible, ShouldRetryStatus, Succeeded;
  }

  /** No forward starts at or after the deadline, and the pauses together stay below the budget. */
  lemma {:induction false} LoopStaysInBudget(p: Policy, route: RouteConfig, turns: seq<Turn>, attempt: nat, attempted: set<Url>, elapsed: Instant)
    requires 1 <= attempt <= Attempts(p) <= |turns|
    ensures var run := RetryLoop(p, route, turns, attempt, attempted, elapsed);
            && (forall c :: c in run.log && c.Forward? ==> elapsed <= c.at < p.totalTimeout)
            && (run.slept > 0 ==> elapsed + run.slept < p.totalTimeout)
    decreases Attempts(p) - attempt
  {
    hide Iterate, IterationLog;
    IterationTimes(p, route, turns[attempt - 1], attempt, attempted, elapsed);
    var it := Iterate(p, route, turns[attempt - 1], attempt, attempted, elapsed);
    match it
    case Again(backend, _, _, next) =>
      LoopStaysInBudget(p, route, turns, attempt + 1, attempted + {backend}, next);
    case Stopped(run) =>
      StoppedLog(run, attempt);
    case Returned(_, _, _, _) =>
  }

  /** Nothing takes time but forwards, each up to the connect timeout, and pauses. */
  ghost predicate Prompt(turns: seq<Turn>, connectTimeout: Instant) {
    forall k :: 0 <= k < |turns| ==>
      && turns[k].headDelay == turns[k].checkDelay == turns[k].backoffDelay == turns[k].oversleep == 0
      && turns[k].forwardTime <= connectTimeout
  }

  /** Then the loop is over within one connect timeout after the budget, or at once when it was entered
      too late. */
  lemma {:induction false} LoopEndsInTime(p: Policy, route: RouteConfig, turns: seq<Turn>, attempt: nat, attempted: set<Url>,
                                          elapsed: Instant, connectTimeout: Instant)
    requires 1 <= attempt <= Attempts(p) <= |turns|
    requires Prompt(turns, connectTimeout)
    ensures var run := RetryLoop(p, route, turns, attempt, attempted, elapsed);
            run.finished <= Max(elapsed, p.totalTimeout + connectTimeout)
    decreases Attempts(p) - attempt
  {
    hide Choice, Backoff, Eligible, ShouldRetryStatus, Succeeded, Exchange;
    var it := Iterate(p, route, turns[attempt - 1], attempt, attempted, elapsed);
    if it.Again? {
      LoopEndsInTime(p, route, turns, attempt + 1, attempted + {it.backend}, it.next, connectTimeout);
    }
  }

  // ---------------------------------------------------------------------------------------------
  // The pace
  // ---------------------------------------------------------------------------------------------

  /** The pauses after attempts `k` to `k + n - 1`. */
  function Pauses(p: Policy, k: nat, n: nat): nat
    requires k >= 1
    decreases n
  {
    if n == 0 then 0 else Pause(p, k) + Pauses(p, k + 1, n - 1)
  }

  /** When the forwards of a log start. */
  function ForwardTimes(log: seq<Call>): seq<Instant> {
    if log == [] then []
    else
      var last := log[|log| - 1];
      ForwardTimes(log[..|log| - 1]) + if last.Forward? then [last.at] else []
  }

  lemma {:induction false} TimesSplit(a: seq<Call>, b: seq<Call>)
    ensures ForwardTimes(a + b) == ForwardTimes(a) + ForwardTimes(b)
  {
    if b == [] {
      assert a + b == a;
    } else {
      TimesSplit(a, b[..|b| - 1]);
      assert (a + b)[..|a + b| - 1] == a + b[..|b| - 1];
    }
  }

  lemma {:induction false} NoForwardNoTime(log: seq<Call>)
    requires forall c :: c in log ==> !c.Forward?
    ensures ForwardTimes(log) == []
  {
    if log != [] {
      NoForwardNoTime(log[..|log| - 1]);
    }
  }

  lemma IterationShape(p: Policy, route: RouteConfig, turn: Turn, attempt: nat, attempted: set<Url>, elapsed: Instant)
    requires attempt >= 1
    ensures var head := elapsed + turn.headDelay;
            match Iterate(p, route, turn, attempt, attempted, elapsed)
            case Stopped(run) => |run.log| == 2 && !run.log[0].Forward? && !run.log[1].Forward? && run.slept == 0
            case Returned(b, sent, logged, run) =>
              && sent == Exchange(p, route, b, head, turn.reply, head + turn.forwardTime)
              && (logged == [] || logged == [RetryLogged(attempt + 1)])
              && run.log == sent + logged && run.slept == 0
            case Again(b, sent, slept, next) =>
              && sent == Exchange(p, route, b, head, turn.reply, head + turn.forwardTime)
              && slept == Pause(p, attempt)
              && head + turn.forwardTime + turn.checkDelay + slept <= next
  {
    BackoffIsPause(p, attempt);
    hide Exchange, Choice, Eligible, Backoff, ShouldRetryStatus, Succeeded, Millis, Pause;
    var it := Iterate(p, route, turn, attempt, attempted, elapsed);
    if it.Returned? {
      assert it.exchange + [] == it.exchange;
    }
  }

  lemma IterationPaces(p: Policy, route: RouteConfig, turn: Turn, attempt: nat, attempted: set<Url>, elapsed: Instant)
    requires attempt >= 1
    ensures var it := Iterate(p, route, turn, attempt, attempted, elapsed);
            var times := ForwardTimes(IterationLog(it, attempt));
            var head := elapsed + turn.headDelay;
            match it
            case Stopped(run) => times == [] && ForwardTimes(run.log) == [] && run.slept == 0
            case Returned(_, _, _, run) => times == [head] && ForwardTimes(run.log) == [head] && run.slept == 0
            case Again(_, _, slept, next) =>
              && times == [head] && slept == Pause(p, attempt)
              && head + turn.forwardTime + turn.checkDelay + Pause(p, attempt) <= next
  {
    hide Exchange, ForwardTimes, Pause;
    IterationShape(p, route, turn, attempt, attempted, elapsed);
    hide Iterate;
    match Iterate(p, route, turn, attempt, attempted, elapsed)
    case Stopped(run) =>
      TwoCalls(run.log);
    case Returned(b, sent, logged, run) =>
      OneForward(p, route, b, elapsed + turn.headDelay, turn, logged);
    case Again(b, sent, _, _) =>
      OneForward(p, route, b, elapsed + turn.headDelay, turn, [RetryLogged(attempt + 1)]);
      SilentTime(sent + [RetryLogged(attempt + 1)], RetryStarted(attempt + 1));
  }

  lemma TwoCalls(log: seq<Call>)
    requires |log| == 2 && !log[0].Forward? && !log[1].Forward?
    ensures ForwardTimes(log) == []
  {
    NoForwardNoTime(log);
  }

  lemma SilentTime(log: seq<Call>, c: Call)
    requires !c.Forward?
    ensures ForwardTimes(log + [c]) == ForwardTimes(log)
  {
    assert (log + [c])[..|log|] == log;
  }

  lemma OneForward(p: Policy, route: RouteConfig, b: Url, head: Instant, turn: Turn, tail: seq<Call>)
    requires forall c :: c in tail ==> !c.Forward?
    ensures ForwardTimes(Exchange(p, route, b, head, turn.reply, head + turn.forwardTime) + tail) == [head]
  {
    var sent := Exchange(p, route, b, head, turn.reply, head + turn.forwardTime);
    hide Succeeded;
    assert sent == [sent[0]] + sent[1..];
    TimesSplit(sent, tail);
    TimesSplit([sent[0]], sent[1..]);
    assert ForwardTimes([sent[0]]) == [head] by {
      assert [sent[0]][..0] == [];
    }
    NoForwardNoTime(sent[1..]);
    NoForwardNoTime(tail);
  }

  /** The loop sleeps after each attempt that it follows by another, for as long as the policy says: all
      pauses add up, and each forward starts its pause after the reply to the one before. */
  lemma {:induction false} LoopPaces(p: Policy, route: RouteConfig, turns: seq<Turn>, attempt: nat, attempted: set<Url>, elapsed: Instant)
    requires 1 <= attempt <= Attempts(p) <= |turns|
    ensures var run := RetryLoop(p, route, turns, attempt, attempted, elapsed);
            var times := ForwardTimes(run.log);
            && run.slept == Pauses(p, attempt, TallyOf(run.log).retriesStarted)
            && |times| == |ForwardsOf(run.log)| && attempt - 1 + |times| <= |turns|
            && (forall i :: 0 <= i < |times| ==> elapsed <= times[i] < p.totalTimeout)
            && (forall i :: 0 <= i < |times| - 1 ==>
                  times[i] + turns[attempt - 1 + i].forwardTime + Pause(p, attempt + i) <= times[i + 1])
    decreases Attempts(p) - attempt
  {
    hide Iterate, RetryLoop, ForwardsOf, OutcomesOf, TallyOf, ForwardTimes, Pause, IterationLog;
    LoopCalls(p, route, turns, attempt, attempted, elapsed);
    var turn := turns[attempt - 1];
    IterationPaces(p, route, turn, attempt, attempted, elapsed);
    HeadInTime(p, route, turn, attempt, attempted, elapsed);
    var it := Iterate(p, route, turn, attempt, attempted, elapsed);
    if it.Again? {
      LoopPaces(p, route, turns, attempt + 1, attempted + {it.backend}, it.next);
      var rest := Rest(p, route, turns, attempt, attempted, elapsed);
      LoopUnrolls(p, route, turns, attempt, attempted, elapsed);
      TimesSplit(IterationLog(it, attempt), rest.log);
      PaceGrows(p, turns, attempt, elapsed, elapsed + turn.headDelay, it.next, ForwardTimes(rest.log));
    }
  }

  lemma LoopUnrolls(p: Policy, route: RouteConfig, turns: seq<Turn>, attempt: nat, attempted: set<Url>, elapsed: Instant)
    requires 1 <= attempt < Attempts(p) <= |turns|
    requires Iterate(p, route, turns[attempt - 1], attempt, attempted, elapsed).Again?
    ensures RetryLoop(p, route, turns, attempt, attempted, elapsed).log
         == IterationLog(Iterate(p, route, turns[attempt - 1], attempt, attempted, elapsed), attempt)
            + Rest(p, route, turns, attempt, attempted, elapsed).log
  {
    hide Iterate, IterationLog;
  }

  lemma HeadInTime(p: Policy, route: RouteConfig, turn: Turn, attempt: nat, attempted: set<Url>, elapsed: Instant)
    requires attempt >= 1
    ensures !Iterate(p, route, turn, attempt, attempted, elapsed).Stopped? ==> elapsed + turn.headDelay < p.totalTimeout
  {
  }

  /** One more forward in front of others that keep the pace. */
  lemma PaceGrows(p: Policy, turns: seq<Turn>, attempt: nat, elapsed: Instant, head: Instant, next: Instant, rest: seq<Instant>)
    requires attempt >= 1 && attempt + |rest| <= |turns| && elapsed <= head < p.totalTimeout
    requires head + turns[attempt - 1].forwardTime + Pause(p, attempt) <= next
    requires forall i :: 0 <= i < |rest| ==> next <= rest[i] < p.totalTimeout
    requires forall i :: 0 <= i < |rest| - 1 ==> rest[i] + turns[attempt + i].forwardTime + Pause(p, attempt + 1 + i) <= rest[i + 1]
    ensures var times := [head] + rest;
            && (forall i :: 0 <= i < |times| ==> elapsed <= times[i] < p.totalTimeout)
            && (forall i :: 0 <= i < |times| - 1 ==>
                  times[i] + turns[attempt - 1 + i].forwardTime + Pause(p, attempt + i) <= times[i + 1])
  {
    hide Pause;
    var times := [head] + rest;
    forall i | 0 <= i < |times| - 1
      ensures times[i] + turns[attempt - 1 + i].forwardTime + Pause(p, attempt + i) <= times[i + 1]
    {
      if i > 0 {
        assert times[i] == rest[i - 1] && times[i + 1] == rest[i];
        assert rest[i - 1] + turns[attempt + (i - 1)].forwardTime + Pause(p, attempt + 1 + (i - 1)) <= rest[i];
      }
    }
  }

  // ---------------------------------------------------------------------------------------------
  // Accounting
  // ---------------------------------------------------------------------------------------------

  /** A reply that speaks for its backend: a response whose status is not among the route's failures, if it
      lists any, and otherwise outside the configured range. No upstream error does. */
  predicate GoodReply(p: Policy, route: RouteConfig, reply: Reply) {
    match reply
    case Failed(_) => false
    case Response(status) =>
      if |route.passiveFailureStatuses| > 0 then status !in route.passiveFailureStatuses
      else status < p.passiveFailureMin || status > p.passiveFailureMax
  }

  lemma SucceededMeans(p: Policy, route: RouteConfig, reply: Reply)
    ensures Succeeded(p, route, reply) <==> GoodReply(p, route, reply)
  {
  }

  /** The health manager hears once about every forward, in order, and about nothing else. */
  ghost predicate OutcomesMatch(p: Policy, route: RouteConfig, turns: seq<Turn>, before: nat, log: seq<Call>)
  {
    && |OutcomesOf(log)| == |ForwardsOf(log)| && before + |ForwardsOf(log)| <= |turns|
    && forall i :: 0 <= i < |ForwardsOf(log)| ==>
      && OutcomesOf(log)[i].0 == ForwardsOf(log)[i]
      && (OutcomesOf(log)[i].1 <==> GoodReply(p, route, turns[before + i].reply))
  }

  lemma NoneMatch(p: Policy, route: RouteConfig, turns: seq<Turn>, before: nat, log: seq<Call>)
    requires before <= |turns| && ForwardsOf(log) == [] && OutcomesOf(log) == []
    ensures OutcomesMatch(p, route, turns, before, log)
  {
  }

  lemma OneMatches(p: Policy, route: RouteConfig, turns: seq<Turn>, attempt: nat, log: seq<Call>, b: Url)
    requires 1 <= attempt <= |turns| && ForwardsOf(log) == [b]
    requires OutcomesOf(log) == [(b, Succeeded(p, route, turns[attempt - 1].reply))]
    ensures OutcomesMatch(p, route, turns, attempt - 1, log)
  {
    SucceededMeans(p, route, turns[attempt - 1].reply);
    hide Succeeded, GoodReply;
  }

  lemma MoreMatch(p: Policy, route: RouteConfig, turns: seq<Turn>, attempt: nat, log: seq<Call>, b: Url, rest: seq<Call>)
    requires 1 <= attempt <= |turns| && OutcomesMatch(p, route, turns, attempt, rest)
    requires ForwardsOf(log) == [b] + ForwardsOf(rest)
    requires OutcomesOf(log) == [(b, Succeeded(p, route, turns[attempt - 1].reply))] + OutcomesOf(rest)
    ensures OutcomesMatch(p, route, turns, attempt - 1, log)
  {
    SucceededMeans(p, route, turns[attempt - 1].reply);
    hide Succeeded, GoodReply, ForwardsOf, OutcomesOf;
    forall i | 0 <= i < |ForwardsOf(log)|
      ensures OutcomesOf(log)[i].0 == ForwardsOf(log)[i]
      ensures OutcomesOf(log)[i].1 <==> GoodReply(p, route, turns[attempt - 1 + i].reply)
    {
      if i > 0 {
        assert OutcomesOf(log)[i] == OutcomesOf(rest)[i - 1] && ForwardsOf(log)[i] == ForwardsOf(rest)[i - 1];
        assert turns[attempt + (i - 1)] == turns[attempt - 1 + i];
      }
    }
  }

  /** Each iteration completes one response: responses are the request plus the retries started. Every
      forward is one latency sample and one outcome. A retry is logged without being started at most
      once, at the end. */
  lemma {:induction false} LoopAccounts(p: Policy, route: RouteConfig, turns: seq<Turn>, attempt: nat, attempted: set<Url>, elapsed: Instant)
    requires 1 <= attempt <= Attempts(p) <= |turns|
    ensures var run := RetryLoop(p, route, turns, attempt, attempted, elapsed);
            var t := TallyOf(run.log);
            && t.statuses == 1 + t.retriesStarted
            && t.latencies == t.forwards == t.outcomes == |ForwardsOf(run.log)|
            && t.retriesStarted <= t.retriesLogged <= t.retriesStarted + 1
            && (run.ending == LastResponse ==> t.retriesStarted == t.forwards - 1)
            && (run.ending != LastResponse ==> t.retriesStarted == t.forwards == t.retriesLogged)
            && t.requests == t.permitsTaken == t.permitsReturned == 0
            && OutcomesMatch(p, route, turns, attempt - 1, run.log)
    decreases Attempts(p) - attempt
  {
    hide Iterate, RetryLoop, ForwardsOf, OutcomesOf, TallyOf, Succeeded, OutcomesMatch;
    LoopCalls(p, route, turns, attempt, attempted, elapsed);
    EndingsOf(p, route, turns[attempt - 1], attempt, attempted, elapsed);
    var it := Iterate(p, route, turns[attempt - 1], attempt, attempted, elapsed);
    if it.Again? {
      LoopAccounts(p, route, turns, attempt + 1, attempted + {it.backend}, it.next);
      MoreMatch(p, route, turns, attempt, RetryLoop(p, route, turns, attempt, attempted, elapsed).log, it.backend,
                Rest(p, route, turns, attempt, attempted, elapsed).log);
    } else if it.Returned? {
      OneMatches(p, route, turns, attempt, RetryLoop(p, route, turns, attempt, attempted, elapsed).log, it.backend);
    } else {
      NoneMatch(p, route, turns, attempt - 1, RetryLoop(p, route, turns, attempt, attempted, elapsed).log);
    }
  }

  lemma EndingsOf(p: Policy, route: RouteConfig, turn: Turn, attempt: nat, attempted: set<Url>, elapsed: Instant)
    requires attempt >= 1
    ensures match Iterate(p, route, turn, attempt, attempted, elapsed)
            case Stopped(run) => run.ending != LastResponse
            case Returned(_, _, logged, run) => run.ending == LastResponse && |logged| <= 1
            case Again(_, _, _, _) => true
  {
  }

  // ---------------------------------------------------------------------------------------------
  // Retries that are announced and not made
  // ---------------------------------------------------------------------------------------------

  /** A retry has been logged that was not started. */
  predicate Unkept(run: Run) {
    TallyOf(run.log).retriesLogged == TallyOf(run.log).retriesStarted + 1
  }

  /** The guards at the end of a run that lead past the log line and not to another attempt, after `tried`
      attempts in all: the budget leaves room at the check, and none for the pause at the second reading. */
  predicate PauseDoesNotFit(p: Policy, route: RouteConfig, tried: nat, run: Run) {
    && run.ending == LastResponse && run.checked.Some? && tried >= 1
    && run.status in RetryStatuses(p, route)
    && tried < p.maxAttempts
    && run.checked.value < p.totalTimeout
    && p.backoffMs > 0
    && run.finished + Pause(p, tried) >= p.totalTimeout
  }

  lemma IterationUnkept(p: Policy, route: RouteConfig, turn: Turn, attempt: nat, attempted: set<Url>, elapsed: Instant)
    requires attempt >= 1
    ensures match Iterate(p, route, turn, attempt, attempted, elapsed)
            case Stopped(run) => !PauseDoesNotFit(p, route, attempt - 1, run)
            case Returned(_, _, logged, run) => |logged| <= 1 && (|logged| == 1 <==> PauseDoesNotFit(p, route, attempt, run))
            case Again(_, _, _, _) => true
  {
    hide Choice, Eligible, Backoff, Pause, Succeeded, Exchange;
    BackoffIsPause(p, attempt);
  }

  lemma {:induction false} LoopUnkept(p: Policy, route: RouteConfig, turns: seq<Turn>, attempt: nat, attempted: set<Url>, elapsed: Instant)
    requires 1 <= attempt <= Attempts(p) <= |turns|
    ensures var run := RetryLoop(p, route, turns, attempt, attempted, elapsed);
            Unkept(run) <==> PauseDoesNotFit(p, route, attempt - 1 + |ForwardsOf(run.log)|, run)
    decreases Attempts(p) - attempt
  {
    hide Iterate, RetryLoop, ForwardsOf, OutcomesOf, TallyOf, Pause, RetryStatuses;
    LoopCalls(p, route, turns, attempt, attempted, elapsed);
    IterationUnkept(p, route, turns[attempt - 1], attempt, attempted, elapsed);
    var it := Iterate(p, route, turns[attempt - 1], attempt, attempted, elapsed);
    if it.Again? {
      LoopUnkept(p, route, turns, attempt + 1, attempted + {it.backend}, it.next);
    }
  }

  /** A retry is logged and not started exactly when the run ends with a retryable response, attempts
      remain, the budget was not over at the check, and the pause no longer fits at the second reading. */
  lemma RetryUnkeptIff(p: Policy, route: RouteConfig, turns: seq<Turn>, entered: Instant)
    requires Attempts(p) <= |turns|
    ensures var run := RetryLoop(p, route, turns, 1, {}, entered);
            Unkept(run) <==> PauseDoesNotFit(p, route, |ForwardsOf(run.log)|, run)
  {
    LoopUnkept(p, route, turns, 1, {}, entered);
  }

  /** Some environment makes the loop announce a retry that it does not make. */
  ghost predicate CanBreakItsWord(p: Policy, route: RouteConfig) {
    exists turns: seq<Turn>, entered: Instant ::
      && Attempts(p) <= |turns| && HealthyOfRoute(route, turns)
      && Unkept(RetryLoop(p, route, turns, 1, {}, entered))
  }

  ghost predicate HealthyOfRoute(route: RouteConfig, turns: seq<Turn>) {
    forall k, b :: 0 <= k < |turns| && b in turns[k].healthy ==> b in route.backends
  }

  /** A retryable answer comes at once, and the second reading of the clock comes too late for the pause. */
  function LateReading(p: Policy, route: RouteConfig): Turn
    requires RetryStatuses(p, route) != [] && route.backends != []
  {
    Turn(0, [route.backends[0]], 0, Response(RetryStatuses(p, route)[0]), 0, 0, p.totalTimeout, 0)
  }

  lemma LateReadingBreaksIt(p: Policy, route: RouteConfig, turns: seq<Turn>)
    requires Attempts(p) <= |turns| && p.maxAttempts > 1 && p.backoffMs > 0 && p.totalTimeout > 0
    requires RetryStatuses(p, route) != [] && route.backends != []
    requires turns[0] == LateReading(p, route)
    ensures Unkept(RetryLoop(p, route, turns, 1, {}, 0))
  {
    hide TallyOf, ForwardsOf, OutcomesOf, Choice, Backoff, Exchange, Succeeded;
    var turn := turns[0];
    LoopCalls(p, route, turns, 1, {}, 0);
    assert turn.healthy[0] in Eligible(turn.healthy, {});
    var it := Iterate(p, route, turn, 1, {}, 0);
    assert it.Returned? && it.tail == [RetryLogged(2)];
  }

  /** No environment makes the loop announce a retry that it does not make exactly when there is no pause,
      no second attempt, no time, or nothing to retry on. */
  lemma KeepsItsWordIff(p: Policy, route: RouteConfig)
    requires route.backends != []
    ensures !CanBreakItsWord(p, route)
       <==> p.backoffMs == 0 || p.maxAttempts <= 1 || p.totalTimeout == 0 || RetryStatuses(p, route) == []
  {
    hide TallyOf, ForwardsOf, RetryLoop, Unkept;
    if p.backoffMs == 0 || p.maxAttempts <= 1 || p.totalTimeout == 0 || RetryStatuses(p, route) == [] {
      forall turns: seq<Turn>, entered: Instant | Attempts(p) <= |turns|
        ensures !Unkept(RetryLoop(p, route, turns, 1, {}, entered))
      {
        RetryUnkeptIff(p, route, turns, entered);
        LoopForwards(p, route, turns, 1, {}, entered);
      }
    } else {
      var turns := seq(Attempts(p), i => LateReading(p, route));
      LateReadingBreaksIt(p, route, turns);
      assert HealthyOfRoute(route, turns);
    }
  }

  // ---------------------------------------------------------------------------------------------
  // Which errors are counted
  // ---------------------------------------------------------------------------------------------

  /** The names under which upstream errors are counted. */
  function ErrorKind(error: UpstreamError): string {
    match error
    case ConnectTimeout => "upstream_connect_timeout"
    case ConnectionRefused => "upstream_connection_refused"
    case RequestFailed => "upstream_request_failed"
    case InvalidResponse => "invalid_upstream_response"
    case ResponseTooLarge => "response_body_too_large"
    case InvalidUri => "invalid_upstream_uri"
    case InvalidBackendUrl => "invalid_backend_url"
  }

  function ReplyErrors(reply: Reply): seq<string> {
    match reply
    case Response(_) => []
    case Failed(error) => [ErrorKind(error)]
  }

  function EndErrors(ending: Ending): seq<string> {
    match ending
    case LastResponse => []
    case BudgetExhausted => ["retry_budget_exhausted"]
    case NoHealthyBackends => ["no_healthy_backends"]
    case RetryExhausted => ["retry_exhausted"]
  }

  /** The errors of the `n` replies from `from` on. */
  function TurnErrors(turns: seq<Turn>, from: nat, n: nat): seq<string>
    requires from + n <= |turns|
    decreases n
  {
    if n == 0 then [] else ReplyErrors(turns[from].reply) + TurnErrors(turns, from + 1, n - 1)
  }

  /** The errors that a log counts, and the retries that it announces. */
  function ErrorsOf(log: seq<Call>): seq<string> {
    if log == [] then []
    else
      var last := log[|log| - 1];
      ErrorsOf(log[..|log| - 1]) + if last.Metric? && last.effect.ProxyError? then [last.effect.kind] else []
  }

  function RetriesOf(log: seq<Call>): seq<nat> {
    if log == [] then []
    else
      var last := log[|log| - 1];
      RetriesOf(log[..|log| - 1]) + if last.RetryLogged? then [last.attempt] else []
  }

  lemma {:induction false} ErrorsSplit(a: seq<Call>, b: seq<Call>)
    ensures ErrorsOf(a + b) == ErrorsOf(a) + ErrorsOf(b)
    ensures RetriesOf(a + b) == RetriesOf(a) + RetriesOf(b)
  {
    hide ErrorsOf, RetriesOf;
    if b == [] {
      assert a + b == a;
      NoErrors(b);
    } else {
      var front, last := b[..|b| - 1], b[|b| - 1];
      ErrorsSplit(a, front);
      ErrorsSnoc(a + front, last);
      ErrorsSnoc(front, last);
      assert a + b == a + front + [last] && b == front + [last];
    }
  }

  lemma ErrorsSnoc(log: seq<Call>, c: Call)
    ensures ErrorsOf(log + [c]) == ErrorsOf(log) + if c.Metric? && c.effect.ProxyError? then [c.effect.kind] else []
    ensures RetriesOf(log + [c]) == RetriesOf(log) + if c.RetryLogged? then [c.attempt] else []
  {
    assert (log + [c])[..|log|] == log;
  }

  lemma ExchangeErrors(p: Policy, route: RouteConfig, b: Url, at: Instant, reply: Reply, elapsed: Instant)
    ensures ErrorsOf(Exchange(p, route, b, at, reply, elapsed)) == ReplyErrors(reply)
    ensures RetriesOf(Exchange(p, route, b, at, reply, elapsed)) == []
  {
    hide ErrorsOf, RetriesOf, Succeeded;
    var first: seq<Call> := [];
    NoErrors(first);
    ErrorsSnoc(first, Forward(b, at));
    var second := first + [Forward(b, at)];
    ErrorsSnoc(second, Metric(UpstreamLatency(elapsed / 1_000)));
    var third := second + [Metric(UpstreamLatency(elapsed / 1_000))];
    ErrorsSnoc(third, Outcome(b, Succeeded(p, route, reply)));
    var fourth := third + [Outcome(b, Succeeded(p, route, reply))];
    if reply.Failed? {
      ErrorsSnoc(fourth, Metric(ProxyError(reply.error.Kind())));
      fourth := fourth + [Metric(ProxyError(reply.error.Kind()))];
    }
    ErrorsSnoc(fourth, Complete(reply.Status()));
    assert fourth + [Complete(reply.Status())] == Exchange(p, route, b, at, reply, elapsed);
  }

  lemma NoErrors(log: seq<Call>)
    requires log == []
    ensures ErrorsOf(log) == [] && RetriesOf(log) == []
  {
  }

  lemma PairErrors(kind: string, status: nat)
    ensures ErrorsOf([Metric(ProxyError(kind)), Complete(status)]) == [kind]
    ensures RetriesOf([Metric(ProxyError(kind)), Complete(status)]) == []
  {
    hide ErrorsOf, RetriesOf;
    var first: seq<Call> := [];
    NoErrors(first);
    ErrorsSnoc(first, Metric(ProxyError(kind)));
    ErrorsSnoc(first + [Metric(ProxyError(kind))], Complete(status));
    assert first + [Metric(ProxyError(kind))] + [Complete(status)] == [Metric(ProxyError(kind)), Complete(status)];
  }

  lemma StopErrors(p: Policy, route: RouteConfig, turn: Turn, attempt: nat, attempted: set<Url>, elapsed: Instant)
    requires attempt >= 1 && Iterate(p, route, turn, attempt, attempted, elapsed).Stopped?
    ensures var run := Iterate(p, route, turn, attempt, attempted, elapsed).run;
            ErrorsOf(run.log) == EndErrors(run.ending) && RetriesOf(run.log) == []
  {
    hide ErrorsOf, RetriesOf, Eligible;
    PairErrors("retry_budget_exhausted", 504);
    PairErrors("no_healthy_backends", 503);
    PairErrors("retry_exhausted", 503);
  }

  lemma IterationErrors(p: Policy, route: RouteConfig, turn: Turn, attempt: nat, attempted: set<Url>, elapsed: Instant)
    requires attempt >= 1
    ensures var it := Iterate(p, route, turn, attempt, attempted, elapsed);
            match it
            case Stopped(run) => ErrorsOf(run.log) == EndErrors(run.ending) && RetriesOf(run.log) == []
            case Returned(_, _, logged, run) =>
              && ErrorsOf(run.log) == ReplyErrors(turn.reply) && run.ending == LastResponse
              && (RetriesOf(run.log) == [] || RetriesOf(run.log) == [attempt + 1])
            case Again(_, _, _, _) =>
              ErrorsOf(IterationLog(it, attempt)) == ReplyErrors(turn.reply) && RetriesOf(IterationLog(it, attempt)) == [attempt + 1]
  {
    var it := Iterate(p, route, turn, attempt, attempted, elapsed);
    hide ErrorsOf, RetriesOf, Exchange, ReplyErrors;
    if it.Stopped? {
      StopErrors(p, route, turn, attempt, attempted, elapsed);
    } else {
      IterationShape(p, route, turn, attempt, attempted, elapsed);
      EndingsOf(p, route, turn, attempt, attempted, elapsed);
      hide Iterate;
      var head := elapsed + turn.headDelay;
      ExchangeErrors(p, route, it.backend, head, turn.reply, head + turn.forwardTime);
      AnnouncedErrors(it.exchange, attempt);
    }
  }

  lemma AnnouncedErrors(sent: seq<Call>, attempt: nat)
    requires RetriesOf(sent) == []
    ensures ErrorsOf(sent + []) == ErrorsOf(sent) && RetriesOf(sent + []) == []
    ensures ErrorsOf(sent + [RetryLogged(attempt + 1)]) == ErrorsOf(sent)
    ensures RetriesOf(sent + [RetryLogged(attempt + 1)]) == [attempt + 1]
    ensures ErrorsOf(sent + [RetryLogged(attempt + 1)] + [RetryStarted(attempt + 1)]) == ErrorsOf(sent)
    ensures RetriesOf(sent + [RetryLogged(attempt + 1)] + [RetryStarted(attempt + 1)]) == [attempt + 1]
  {
    hide ErrorsOf, RetriesOf;
    assert sent + [] == sent;
    ErrorsSnoc(sent, RetryLogged(attempt + 1));
    ErrorsSnoc(sent + [RetryLogged(attempt + 1)], RetryStarted(attempt + 1));
  }

  /** Every error is counted under its own name: each failed reply, in order, and then what the loop ended
      with if that was no response. And the retries that are announced are numbered one by one. */
  lemma {:induction false} LoopErrors(p: Policy, route: RouteConfig, turns: seq<Turn>, attempt: nat, attempted: set<Url>, elapsed: Instant)
    requires 1 <= attempt <= Attempts(p) <= |turns|
    ensures var run := RetryLoop(p, route, turns, attempt, attempted, elapsed);
            var tried := |ForwardsOf(run.log)|;
            && attempt - 1 + tried <= |turns|
            && ErrorsOf(run.log) == TurnErrors(turns, attempt - 1, tried) + EndErrors(run.ending)
            && forall i :: 0 <= i < |RetriesOf(run.log)| ==> RetriesOf(run.log)[i] == attempt + 1 + i
    decreases Attempts(p) - attempt
  {
    hide Iterate, RetryLoop, ForwardsOf, OutcomesOf, TallyOf, ErrorsOf, RetriesOf, IterationLog, ReplyErrors, EndErrors, Plus;
    LoopCalls(p, route, turns, attempt, attempted, elapsed);
    IterationErrors(p, route, turns[attempt - 1], attempt, attempted, elapsed);
    var it := Iterate(p, route, turns[attempt - 1], attempt, attempted, elapsed);
    if it.Again? {
      LoopErrors(p, route, turns, attempt + 1, attempted + {it.backend}, it.next);
      LoopUnrolls(p, route, turns, attempt, attempted, elapsed);
      ErrorsSplit(IterationLog(it, attempt), Rest(p, route, turns, attempt, attempted, elapsed).log);
    } else if it.Returned? {
      LastErrors(it.run.ending, turns, attempt, ErrorsOf(it.run.log));
    }
  }

  lemma LastErrors(ending: Ending, turns: seq<Turn>, attempt: nat, errors: seq<string>)
    requires 1 <= attempt <= |turns| && ending == LastResponse && errors == ReplyErrors(turns[attempt - 1].reply)
    ensures errors == TurnErrors(turns, attempt - 1, 1) + EndErrors(ending)
  {
    assert TurnErrors(turns, attempt, 0) == [];
  }
}
