/** The circuit breaker of one backend, and of all of them, as `src/health/mod.rs` runs it when
    every method call takes effect at once. The classes of `health.dfy` are proved to behave like
    the functions here; `health_threads.dfy` takes the calls apart. */
module CircuitBreaker {
  import opened Common

  /** The configured thresholds, which validation keeps positive. */
  datatype Settings = Settings(failureThreshold: nat, recoveryThreshold: nat, ejectionDuration: nat)
  {
    ghost predicate Valid() {
      && 0 < failureThreshold < TWO_64
      && 0 < recoveryThreshold < TWO_64
      && 0 < ejectionDuration
    }
  }

  datatype Breaker = Breaker(
    healthy: bool,
    failures: nat,
    successes: nat,
    ejectedUntil: Option<Instant>,
    probing: bool)

  const Fresh := Breaker(true, 0, 0, None, false)

  /** A health state change as it is reported to telemetry. */
  datatype Transition = Transition(from: string, to: string, reason: string)

  // ---------------------------------------------------------------------------------------------
  // The three things that can happen to a backend
  // ---------------------------------------------------------------------------------------------

  function OnSuccess(cfg: Settings, b: Breaker): (Breaker, Option<Transition>) {
    var cleared := b.(failures := 0);
    if cleared.probing then
      (cleared.(probing := false, healthy := true, successes := 0),
       Some(Transition("probing", "healthy", "probe_succeeded")))
    else
      var successes := Bump(cleared.successes);
      if !cleared.healthy && successes >= cfg.recoveryThreshold then
        (cleared.(healthy := true, successes := 0),
         Some(Transition("unhealthy", "healthy", "success_threshold")))
      else
        (cleared.(successes := successes), None)
  }

  function OnFailure(cfg: Settings, b: Breaker, now: Instant): (Breaker, Option<Transition>) {
    var cleared := b.(successes := 0);
    if cleared.probing then
      (cleared.(probing := false, ejectedUntil := Some(now + cfg.ejectionDuration)),
       Some(Transition("probing", "ejected", "probe_failed")))
    else
      var failures := Bump(cleared.failures);
      if cleared.healthy && failures >= cfg.failureThreshold then
        (cleared.(healthy := false, failures := 0, ejectedUntil := Some(now + cfg.ejectionDuration)),
         Some(Transition("healthy", "unhealthy", "failure_threshold")))
      else
        (cleared.(failures := failures), None)
  }

  /** The eligibility query: an expired ejection turns into a probe. */
  function OnQuery(b: Breaker, now: Instant): Breaker {
    if b.ejectedUntil.Some? && b.ejectedUntil.value <= now then
      b.(ejectedUntil := None, probing := true)
    else
      b
  }

  /** Whether a query at `now` says that the backend is ejected. */
  predicate Ejected(b: Breaker, now: Instant) {
    b.ejectedUntil.Some? && b.ejectedUntil.value > now
  }

  /** What `healthy_backends` tests, after the query has had its effect. */
  predicate Offered(b: Breaker, now: Instant) {
    !Ejected(b, now) && (OnQuery(b, now).healthy || OnQuery(b, now).probing)
  }

  datatype Kind = Success | Failure | Query

  datatype Event = Event(kind: Kind, at: Instant)

  function Step(cfg: Settings, b: Breaker, e: Event): Breaker {
    match e.kind
    case Success => OnSuccess(cfg, b).0
    case Failure => OnFailure(cfg, b, e.at).0
    case Query => OnQuery(b, e.at)
  }

  function Run(cfg: Settings, b: Breaker, log: seq<Event>): Breaker {
    if log == [] then b else Step(cfg, Run(cfg, b, log[..|log| - 1]), log[|log| - 1])
  }

  function Times(log: seq<Event>): seq<Instant> {
    seq(|log|, i requires 0 <= i < |log| => log[i].at)
  }

  // ---------------------------------------------------------------------------------------------
  // What every state satisfies
  // ---------------------------------------------------------------------------------------------

  ghost predicate Inv(cfg: Settings, b: Breaker) {
    && (b.healthy ==> b.failures < cfg.failureThreshold)
    && (!b.healthy ==> b.successes < cfg.recoveryThreshold)
    && (b.failures == 0 || b.successes == 0)
    && (b.probing ==> b.ejectedUntil.None?)
    && (!b.healthy ==> b.ejectedUntil.Some? || b.probing)
  }

  lemma StepKeepsInv(cfg: Settings, b: Breaker, e: Event)
    requires cfg.Valid() && Inv(cfg, b)
    ensures Inv(cfg, Step(cfg, b, e))
  {
  }

  lemma {:induction false} RunKeepsInv(cfg: Settings, b: Breaker, log: seq<Event>)
    requires cfg.Valid() && Inv(cfg, b)
    ensures Inv(cfg, Run(cfg, b, log))
  {
    if log != [] {
      RunKeepsInv(cfg, b, log[..|log| - 1]);
    }
  }

  /** In every reachable state a backend is offered exactly when its ejection deadline is absent or
      past: the health test never takes anything away from that. */
  lemma {:induction false} OfferedIffNotEjected(cfg: Settings, log: seq<Event>, now: Instant)
    requires cfg.Valid()
    ensures var b := Run(cfg, Fresh, log);
            Offered(b, now) <==> b.ejectedUntil.None? || b.ejectedUntil.value <= now
  {
    RunKeepsInv(cfg, Fresh, log);
  }

  // ---------------------------------------------------------------------------------------------
  // The five states
  // ---------------------------------------------------------------------------------------------

  datatype Phase = Closed | ClosedEjected | ClosedProbing | OpenEjected | OpenProbing

  function PhaseOf(b: Breaker): Phase {
    if b.healthy then
      if b.ejectedUntil.Some? then ClosedEjected else if b.probing then ClosedProbing else Closed
    else
      if b.ejectedUntil.Some? then OpenEjected else OpenProbing
  }

  /** The breaker's transitions. `tripped` says that this failure is the threshold's, `restored`
      that this success is, and `expired` that the query comes at or after the deadline. */
  function NextPhase(p: Phase, k: Kind, tripped: bool, restored: bool, expired: bool): Phase {
    match k
    case Success =>
      if p.ClosedProbing? || p.OpenProbing? then Closed
      else if p.OpenEjected? && restored then ClosedEjected
      else p
    case Failure =>
      if p.ClosedProbing? then ClosedEjected
      else if p.OpenProbing? then OpenEjected
      else if (p.Closed? || p.ClosedEjected?) && tripped then OpenEjected
      else p
    case Query =>
      if p.ClosedEjected? && expired then ClosedProbing
      else if p.OpenEjected? && expired then OpenProbing
      else p
  }

  /** Every run of the manager is a run of the five-state breaker, whose states are told apart by
      the flags alone; (unhealthy, not ejected, not probing) does not occur. */
  lemma RefinesPhases(cfg: Settings, log: seq<Event>, e: Event)
    requires cfg.Valid()
    ensures var b := Run(cfg, Fresh, log);
            && PhaseOf(Step(cfg, b, e))
            == NextPhase(PhaseOf(b), e.kind,
                         b.failures + 1 >= cfg.failureThreshold,
                         b.successes + 1 >= cfg.recoveryThreshold,
                         b.ejectedUntil.Some? && b.ejectedUntil.value <= e.at)
            && (b.healthy || b.ejectedUntil.Some? || b.probing)
            && !(b.ejectedUntil.Some? && b.probing)
  {
    RunKeepsInv(cfg, Fresh, log);
  }

  // ---------------------------------------------------------------------------------------------
  // Whole runs: what the thresholds mean
  // ---------------------------------------------------------------------------------------------

  /** Failures since the last success (queries do not count either way). */
  function TrailingFailures(log: seq<Event>): nat {
    if log == [] then 0
    else
      var rest := TrailingFailures(log[..|log| - 1]);
      match log[|log| - 1].kind
      case Success => 0
      case Failure => rest + 1
      case Query => rest
  }

  /** Successes since the last failure. */
  function TrailingSuccesses(log: seq<Event>): nat {
    if log == [] then 0
    else
      var rest := TrailingSuccesses(log[..|log| - 1]);
      match log[|log| - 1].kind
      case Success => rest + 1
      case Failure => 0
      case Query => rest
  }

  lemma {:induction false} CountersBound(cfg: Settings, log: seq<Event>)
    ensures Run(cfg, Fresh, log).failures <= TrailingFailures(log)
    ensures Run(cfg, Fresh, log).successes <= TrailingSuccesses(log)
  {
    if log != [] {
      CountersBound(cfg, log[..|log| - 1]);
    }
  }

  /** A backend only turns unhealthy on a failure that ends at least `failureThreshold` failures
      in a row, and then it is ejected from that moment on. */
  lemma UnhealthyNeedsFailures(cfg: Settings, log: seq<Event>, e: Event)
    requires cfg.Valid()
    requires Run(cfg, Fresh, log).healthy && !Run(cfg, Fresh, log + [e]).healthy
    ensures e.kind == Failure && TrailingFailures(log + [e]) >= cfg.failureThreshold
    ensures Run(cfg, Fresh, log + [e]).ejectedUntil == Some(e.at + cfg.ejectionDuration)
  {
    assert (log + [e])[..|log|] == log;
    CountersBound(cfg, log);
  }

  /** A backend that is not being probed only turns healthy on a success that ends at least
      `recoveryThreshold` successes in a row, and that leaves its ejection in place. */
  lemma RecoveryNeedsSuccesses(cfg: Settings, log: seq<Event>, e: Event)
    requires cfg.Valid()
    requires !Run(cfg, Fresh, log).healthy && Run(cfg, Fresh, log + [e]).healthy
    requires !Run(cfg, Fresh, log).probing
    ensures e.kind == Success && TrailingSuccesses(log + [e]) >= cfg.recoveryThreshold
    ensures Run(cfg, Fresh, log + [e]).ejectedUntil == Run(cfg, Fresh, log).ejectedUntil
    ensures Run(cfg, Fresh, log).ejectedUntil.Some?
  {
    assert (log + [e])[..|log|] == log;
    CountersBound(cfg, log);
    RunKeepsInv(cfg, Fresh, log);
  }

  /** The queries of a log come before the deadline, if there is one. */
  ghost predicate QueriedBefore(log: seq<Event>, deadline: Option<Instant>) {
    forall i :: 0 <= i < |log| && log[i].kind == Query && deadline.Some? ==> log[i].at < deadline.value
  }

  /** The failure threshold is met on time: as long as no success comes in, a healthy breaker that is not
      probed counts every failure, ejected or not, and it opens on exactly the one that completes the
      threshold. */
  lemma {:induction false} FailuresTripOnTime(cfg: Settings, b: Breaker, log: seq<Event>)
    requires cfg.Valid() && Inv(cfg, b) && b.healthy && !b.probing
    requires QueriedBefore(log, b.ejectedUntil) && forall i :: 0 <= i < |log| ==> log[i].kind != Success
    requires b.failures + TrailingFailures(log) <= cfg.failureThreshold
    requires log != [] ==> b.failures + TrailingFailures(log[..|log| - 1]) < cfg.failureThreshold
    ensures Run(cfg, b, log)
         == if TrailingFailures(log) == 0 then b
            else if b.failures + TrailingFailures(log) < cfg.failureThreshold
            then b.(failures := b.failures + TrailingFailures(log), successes := 0)
            else Breaker(false, 0, 0, Some(log[|log| - 1].at + cfg.ejectionDuration), false)
  {
    if log != [] {
      var front := log[..|log| - 1];
      if front != [] {
        TrailingGrows(front);
      }
      FailuresTripOnTime(cfg, b, front);
    }
  }

  lemma TrailingGrows(log: seq<Event>)
    requires log != []
    ensures log[|log| - 1].kind != Success ==> TrailingFailures(log[..|log| - 1]) <= TrailingFailures(log)
    ensures log[|log| - 1].kind != Failure ==> TrailingSuccesses(log[..|log| - 1]) <= TrailingSuccesses(log)
  {
  }

  /** The recovery threshold is met on time: while the ejection of an open breaker lasts and no failure
      comes in, it counts every success, and it turns healthy on exactly the one that completes the
      threshold, still ejected. */
  lemma {:induction false} SuccessesRecoverOnTime(cfg: Settings, b: Breaker, log: seq<Event>)
    requires cfg.Valid() && Inv(cfg, b) && PhaseOf(b) == OpenEjected
    requires QueriedBefore(log, b.ejectedUntil) && forall i :: 0 <= i < |log| ==> log[i].kind != Failure
    requires b.successes + TrailingSuccesses(log) <= cfg.recoveryThreshold
    requires log != [] ==> b.successes + TrailingSuccesses(log[..|log| - 1]) < cfg.recoveryThreshold
    ensures Run(cfg, b, log)
         == if TrailingSuccesses(log) == 0 then b
            else if b.successes + TrailingSuccesses(log) < cfg.recoveryThreshold
            then b.(failures := 0, successes := b.successes + TrailingSuccesses(log))
            else Breaker(true, 0, 0, b.ejectedUntil, false)
  {
    if log != [] {
      var front := log[..|log| - 1];
      if front != [] {
        TrailingGrows(front);
      }
      SuccessesRecoverOnTime(cfg, b, front);
    }
  }

  /** All failures of a log. */
  function Failures(log: seq<Event>): nat {
    if log == [] then 0 else Failures(log[..|log| - 1]) + if log[|log| - 1].kind == Failure then 1 else 0
  }

  /** Nothing but `failureThreshold` failures, in a row or not, ever takes a backend out of the pool. */
  lemma {:induction false} UnavailableNeedsFailures(cfg: Settings, log: seq<Event>)
    requires cfg.Valid()
    ensures var b := Run(cfg, Fresh, log);
            && b.failures <= Failures(log)
            && (!b.healthy || b.probing || b.ejectedUntil.Some? ==> Failures(log) >= cfg.failureThreshold)
  {
    if log != [] {
      UnavailableNeedsFailures(cfg, log[..|log| - 1]);
    }
  }

  lemma {:induction false} RunSplits(cfg: Settings, b: Breaker, first: seq<Event>, second: seq<Event>)
    ensures Run(cfg, b, first + second) == Run(cfg, Run(cfg, b, first), second)
  {
    if second == [] {
      assert first + second == first;
    } else {
      RunSplits(cfg, b, first, second[..|second| - 1]);
      assert (first + second)[..|first + second| - 1] == first + second[..|second| - 1];
    }
  }

  lemma {:induction false} QueriesLeaveProbe(cfg: Settings, b: Breaker, queries: seq<Event>)
    requires Inv(cfg, b) && b.probing
    requires forall i :: 0 <= i < |queries| ==> queries[i].kind == Query
    ensures Run(cfg, b, queries) == b
  {
    if queries != [] {
      QueriesLeaveProbe(cfg, b, queries[..|queries| - 1]);
    }
  }

  lemma ProbeEnds(cfg: Settings, b: Breaker, e: Event)
    requires Inv(cfg, b) && b.probing && e.kind != Query
    ensures Step(cfg, b, e)
         == if e.kind == Success then Fresh
            else Breaker(b.healthy, b.failures, 0, Some(e.at + cfg.ejectionDuration), false)
  {
  }

  /** While a backend is being probed, any number of requests may pass, and the first recorded
      outcome alone decides: success restores it, failure ejects it again (and, contrary to what one
      might expect, leaves its health flag and its failure counter as they were). */
  lemma FirstOutcomeDecides(cfg: Settings, log: seq<Event>, queries: seq<Event>, e: Event)
    requires cfg.Valid() && Run(cfg, Fresh, log).probing
    requires forall i :: 0 <= i < |queries| ==> queries[i].kind == Query
    requires e.kind != Query
    ensures forall i :: 0 <= i < |queries| ==> Offered(Run(cfg, Fresh, log + queries[..i]), queries[i].at)
    ensures var before := Run(cfg, Fresh, log);
            var after := Run(cfg, Fresh, log + queries + [e]);
            after == if e.kind == Success then Fresh
                     else Breaker(before.healthy, before.failures, 0, Some(e.at + cfg.ejectionDuration), false)
  {
    var b := Run(cfg, Fresh, log);
    RunKeepsInv(cfg, Fresh, log);
    forall i | 0 <= i <= |queries| ensures Run(cfg, Fresh, log + queries[..i]) == b {
      RunSplits(cfg, Fresh, log, queries[..i]);
      QueriesLeaveProbe(cfg, b, queries[..i]);
    }
    assert queries[..|queries|] == queries;
    RunSplits(cfg, Fresh, log + queries, [e]);
    assert Run(cfg, b, [e]) == Step(cfg, b, e) by { assert [e][..0] == []; }
    ProbeEnds(cfg, b, e);
    hide Run, Step;
  }

  // ---------------------------------------------------------------------------------------------
  // Whole runs: what the counters count
  // ---------------------------------------------------------------------------------------------

  /** The failures recorded outside a probe since the last success or trip. A failed probe neither counts
      nor makes the others forgotten. */
  function FailuresSince(cfg: Settings, log: seq<Event>): nat {
    if log == [] then 0
    else
      var front, last := log[..|log| - 1], log[|log| - 1];
      CountFailure(Run(cfg, Fresh, front), Run(cfg, Fresh, log), last.kind, FailuresSince(cfg, front))
  }

  function CountFailure(before: Breaker, after: Breaker, kind: Kind, count: nat): nat {
    if kind == Success || (before.healthy && !after.healthy) then 0
    else if kind == Failure && !before.probing then count + 1
    else count
  }

  /** The successes since the last failure or recovery. */
  function SuccessesSince(cfg: Settings, log: seq<Event>): nat {
    if log == [] then 0
    else
      var front, last := log[..|log| - 1], log[|log| - 1];
      CountSuccess(Run(cfg, Fresh, front), Run(cfg, Fresh, log), last.kind, SuccessesSince(cfg, front))
  }

  function CountSuccess(before: Breaker, after: Breaker, kind: Kind, count: nat): nat {
    if kind == Failure || (!before.healthy && after.healthy) || (kind == Success && before.probing) then 0
    else if kind == Success then count + 1
    else count
  }

  /** The counters hold these counts, as far as 64 bits go. */
  predicate Counts(cfg: Settings, b: Breaker, failures: nat, successes: nat) {
    && b.failures == failures % TWO_64 && b.successes == successes % TWO_64
    && (b.healthy ==> failures < cfg.failureThreshold)
    && (!b.healthy ==> successes < cfg.recoveryThreshold)
  }

  lemma BumpCounts(n: nat)
    ensures Bump(n % TWO_64) == (n + 1) % TWO_64
  {
  }

  lemma SuccessCounts(cfg: Settings, b: Breaker, failures: nat, successes: nat)
    requires cfg.Valid() && Inv(cfg, b) && Counts(cfg, b, failures, successes)
    ensures var after := OnSuccess(cfg, b).0;
            Counts(cfg, after, CountFailure(b, after, Success, failures), CountSuccess(b, after, Success, successes))
  {
    BumpCounts(successes);
    hide Bump;
    if !b.healthy {
      assert Bump(b.successes) == successes + 1;
    }
  }

  lemma FailureCounts(cfg: Settings, b: Breaker, failures: nat, successes: nat, now: Instant)
    requires cfg.Valid() && Inv(cfg, b) && Counts(cfg, b, failures, successes)
    ensures var after := OnFailure(cfg, b, now).0;
            Counts(cfg, after, CountFailure(b, after, Failure, failures), CountSuccess(b, after, Failure, successes))
  {
    BumpCounts(failures);
    hide Bump;
    if b.healthy {
      assert Bump(b.failures) == failures + 1;
    }
  }

  lemma {:induction false} CountersCount(cfg: Settings, log: seq<Event>)
    requires cfg.Valid()
    ensures Counts(cfg, Run(cfg, Fresh, log), FailuresSince(cfg, log), SuccessesSince(cfg, log))
  {
    if log != [] {
      var front, last := log[..|log| - 1], log[|log| - 1];
      CountersCount(cfg, front);
      RunKeepsInv(cfg, Fresh, front);
      hide Counts, CountFailure, CountSuccess, Inv, OnSuccess, OnFailure;
      var b := Run(cfg, Fresh, front);
      match last.kind
      case Success => SuccessCounts(cfg, b, FailuresSince(cfg, front), SuccessesSince(cfg, front));
      case Failure => FailureCounts(cfg, b, FailuresSince(cfg, front), SuccessesSince(cfg, front), last.at);
      case Query => QueryCounts(cfg, b, FailuresSince(cfg, front), SuccessesSince(cfg, front), last.at);
    }
  }

  lemma QueryCounts(cfg: Settings, b: Breaker, failures: nat, successes: nat, now: Instant)
    requires Counts(cfg, b, failures, successes)
    ensures var after := OnQuery(b, now);
            Counts(cfg, after, CountFailure(b, after, Query, failures), CountSuccess(b, after, Query, successes))
  {
  }

  lemma StepTrips(cfg: Settings, b: Breaker, e: Event, failures: nat, successes: nat)
    requires cfg.Valid() && Counts(cfg, b, failures, successes)
    ensures b.healthy ==> (!Step(cfg, b, e).healthy <==> e.kind == Failure && !b.probing && failures + 1 == cfg.failureThreshold)
    ensures !b.healthy ==>
              (Step(cfg, b, e).healthy <==> e.kind == Success && (b.probing || successes + 1 == cfg.recoveryThreshold))
  {
    if b.healthy {
      assert b.failures == failures;
    } else {
      assert b.successes == successes;
    }
  }

  lemma RunGrows(cfg: Settings, b: Breaker, log: seq<Event>, e: Event)
    ensures Run(cfg, b, log + [e]) == Step(cfg, Run(cfg, b, log), e)
  {
    assert (log + [e])[..|log|] == log;
  }

  /** A healthy backend trips on exactly the failure outside a probe that makes `failureThreshold` of them
      since the last success or trip, across any number of failed probes. */
  lemma TripsExactly(cfg: Settings, log: seq<Event>, e: Event)
    requires cfg.Valid() && Run(cfg, Fresh, log).healthy
    ensures !Run(cfg, Fresh, log + [e]).healthy
       <==> e.kind == Failure && !Run(cfg, Fresh, log).probing && FailuresSince(cfg, log) + 1 == cfg.failureThreshold
  {
    hide Run, Step, Counts, FailuresSince, SuccessesSince;
    RunGrows(cfg, Fresh, log, e);
    CountersCount(cfg, log);
    StepTrips(cfg, Run(cfg, Fresh, log), e, FailuresSince(cfg, log), SuccessesSince(cfg, log));
  }

  /** An unhealthy backend recovers on exactly the success that ends a probe, or that makes
      `recoveryThreshold` of them since the last failure. */
  lemma RecoversExactly(cfg: Settings, log: seq<Event>, e: Event)
    requires cfg.Valid() && !Run(cfg, Fresh, log).healthy
    ensures Run(cfg, Fresh, log + [e]).healthy
       <==> e.kind == Success && (Run(cfg, Fresh, log).probing || SuccessesSince(cfg, log) + 1 == cfg.recoveryThreshold)
  {
    hide Run, Step, Counts, FailuresSince, SuccessesSince;
    RunGrows(cfg, Fresh, log, e);
    CountersCount(cfg, log);
    StepTrips(cfg, Run(cfg, Fresh, log), e, FailuresSince(cfg, log), SuccessesSince(cfg, log));
  }

  // ---------------------------------------------------------------------------------------------
  // What is reported
  // ---------------------------------------------------------------------------------------------

  /** The transition that an event reports. */
  function Report(cfg: Settings, b: Breaker, e: Event): Option<Transition> {
    match e.kind
    case Success => OnSuccess(cfg, b).1
    case Failure => OnFailure(cfg, b, e.at).1
    case Query => None
  }

  /** A transition is reported exactly when an outcome ends a probe or changes the health flag, and it says
      which of the four that was. */
  lemma ReportsSayWhatHappened(cfg: Settings, b: Breaker, e: Event)
    requires cfg.Valid() && Inv(cfg, b)
    ensures var after := Step(cfg, b, e);
            Report(cfg, b, e)
            == if e.kind == Query then None
               else if b.probing && !after.probing && after.healthy && e.kind == Success
               then Some(Transition("probing", "healthy", "probe_succeeded"))
               else if b.probing && !after.probing && after.ejectedUntil.Some?
               then Some(Transition("probing", "ejected", "probe_failed"))
               else if !b.healthy && after.healthy then Some(Transition("unhealthy", "healthy", "success_threshold"))
               else if b.healthy && !after.healthy then Some(Transition("healthy", "unhealthy", "failure_threshold"))
               else None
    ensures Report(cfg, b, e).Some?
       <==> e.kind != Query && (b.probing || b.healthy != Step(cfg, b, e).healthy)
  {
  }

  // ---------------------------------------------------------------------------------------------
  // Whole runs: what an ejection guarantees
  // ---------------------------------------------------------------------------------------------

  /** Before a deadline passes it can only move later, whatever happens to the backend. */
  lemma {:induction false} DeadlineHolds(cfg: Settings, b: Breaker, log: seq<Event>, start: Instant, deadline: Instant)
    requires cfg.Valid() && Inv(cfg, b)
    requires b.ejectedUntil.Some? && deadline <= b.ejectedUntil.value
    requires deadline <= start + cfg.ejectionDuration
    requires forall i :: 0 <= i < |log| ==> start <= log[i].at < deadline
    ensures var after := Run(cfg, b, log);
            after.ejectedUntil.Some? && deadline <= after.ejectedUntil.value
  {
    if log != [] {
      DeadlineHolds(cfg, b, log[..|log| - 1], start, deadline);
      RunKeepsInv(cfg, b, log[..|log| - 1]);
    }
  }

  /** One step never moves a deadline earlier: it is kept, replaced by one a full duration away, or
      cleared by a query that finds it past. */
  lemma DeadlineMoves(cfg: Settings, log: seq<Event>, e: Event)
    requires cfg.Valid() && Ordered(Times(log + [e]))
    ensures var before, after := Run(cfg, Fresh, log).ejectedUntil, Run(cfg, Fresh, log + [e]).ejectedUntil;
            before.Some? ==>
              || (after.Some? && before.value <= after.value)
              || (after.None? && e.kind == Query && before.value <= e.at)
  {
    var all := log + [e];
    assert all[..|log|] == log;
    forall i | 0 <= i < |log| ensures log[i].at <= e.at {
      assert Times(all)[i] <= Times(all)[|log|];
    }
    DeadlineIsRecent(cfg, log, e.at);
  }

  lemma {:induction false} DeadlineIsRecent(cfg: Settings, log: seq<Event>, now: Instant)
    requires forall i :: 0 <= i < |log| ==> log[i].at <= now
    ensures var d := Run(cfg, Fresh, log).ejectedUntil; d.Some? ==> d.value <= now + cfg.ejectionDuration
  {
    if log != [] {
      DeadlineIsRecent(cfg, log[..|log| - 1], now);
    }
  }

  /** An ejection at `e.at` keeps the backend out of every answer before `e.at` plus the ejection
      duration, whatever successes, failures, checks and queries come in between. */
  lemma EjectionHolds(cfg: Settings, log: seq<Event>, e: Event, later: seq<Event>, now: Instant)
    requires cfg.Valid()
    requires Run(cfg, Fresh, log + [e]).ejectedUntil == Some(e.at + cfg.ejectionDuration)
    requires forall i :: 0 <= i < |later| ==> e.at <= later[i].at <= now
    requires now < e.at + cfg.ejectionDuration
    ensures !Offered(Run(cfg, Fresh, log + [e] + later), now)
  {
    var b := Run(cfg, Fresh, log + [e]);
    RunSplits(cfg, Fresh, log + [e], later);
    RunKeepsInv(cfg, Fresh, log + [e]);
    DeadlineHolds(cfg, b, later, e.at, e.at + cfg.ejectionDuration);
  }
}
