/** The health manager of `src/health/mod.rs` as objects updated in place. Each method is proved to
    do to the map of breakers what the functions of `breaker.dfy` and `pool.dfy` say. */
module Health {
  import opened Common
  import opened CircuitBreaker
  import opened Pool
  import opened Metrics

  class BackendHealth {
    var healthy: bool
    var consecutiveFailures: nat
    var consecutiveSuccesses: nat
    var ejectedUntil: Option<Instant>
    /** True in the half-open window after an ejection has expired. */
    var probing: bool

    function View(): Breaker
      reads this
    {
      Breaker(healthy, consecutiveFailures, consecutiveSuccesses, ejectedUntil, probing)
    }

    constructor Healthy()
      ensures View() == Fresh
    {
      healthy, consecutiveFailures, consecutiveSuccesses := true, 0, 0;
      ejectedUntil, probing := None, false;
    }

    method Eject(settings: Settings, now: Instant)
      modifies this
      ensures View() == old(View()).(ejectedUntil := Some(now + settings.ejectionDuration))
    {
      ejectedUntil := Some(now + settings.ejectionDuration);
    }

    /** A success of this backend; in the half-open window it restores the backend at once. */
    method Succeed(settings: Settings) returns (report: Option<Transition>)
      modifies this
      ensures (View(), report) == OnSuccess(settings, old(View()))
      ensures report
           == if old(probing) then Some(Transition("probing", "healthy", "probe_succeeded"))
              else if healthy && !old(healthy) then Some(Transition("unhealthy", "healthy", "success_threshold"))
              else None
    {
      consecutiveFailures := 0;

      if probing {
        probing := false;
        healthy := true;
        consecutiveSuccesses := 0;
        return Some(Transition("probing", "healthy", "probe_succeeded"));
      }

      consecutiveSuccesses := Bump(consecutiveSuccesses);
      var successes := consecutiveSuccesses;
      if !healthy && successes >= settings.recoveryThreshold {
        healthy := true;
        consecutiveSuccesses := 0;
        return Some(Transition("unhealthy", "healthy", "success_threshold"));
      }
      return None;
    }

    /** A failure of this backend; in the half-open window it ejects the backend at once. */
    method Fail(settings: Settings, now: Instant) returns (report: Option<Transition>)
      modifies this
      ensures (View(), report) == OnFailure(settings, old(View()), now)
      ensures report
           == if old(probing) then Some(Transition("probing", "ejected", "probe_failed"))
              else if old(healthy) && !healthy then Some(Transition("healthy", "unhealthy", "failure_threshold"))
              else None
    {
      consecutiveSuccesses := 0;

      if probing {
        probing := false;
        Eject(settings, now);
        return Some(Transition("probing", "ejected", "probe_failed"));
      }

      consecutiveFailures := Bump(consecutiveFailures);
      var failures := consecutiveFailures;
      if healthy && failures >= settings.failureThreshold {
        healthy := false;
        consecutiveFailures := 0;
        Eject(settings, now);
        return Some(Transition("healthy", "unhealthy", "failure_threshold"));
      }
      return None;
    }
  }

  class HealthManager {
    const backendHealth: map<Url, BackendHealth>
    const telemetry: Telemetry?
    const settings: Settings

    ghost predicate Distinct() {
      forall a, b :: a in backendHealth && b in backendHealth && a != b ==> backendHealth[a] != backendHealth[b]
    }

    ghost function Objects(): set<BackendHealth> {
      set b | b in backendHealth :: backendHealth[b]
    }

    /** The breakers as a value. */
    ghost function View(): Breakers
      reads Objects()
    {
      map b | b in backendHealth :: backendHealth[b].View()
    }

    ghost predicate PoolValid()
      reads Objects()
    {
      Distinct() && settings.Valid() && AllInv(settings, View())
    }

    ghost predicate Valid()
      reads Objects(), telemetry
    {
      PoolValid() && (telemetry != null ==> telemetry.Valid())
    }

    /** One healthy entry per backend, shared by all the routes that name it. */
    constructor (pools: seq<seq<Url>>, settings: Settings, telemetry: Telemetry?)
      requires settings.Valid() && (telemetry != null ==> telemetry.Valid())
      ensures Valid() && Started(View()) && fresh(Objects())
      ensures this.settings == settings && this.telemetry == telemetry
      ensures forall b :: b in backendHealth <==> exists i :: 0 <= i < |pools| && b in pools[i]
    {
      var entries: map<Url, BackendHealth> := map[];
      for i := 0 to |pools|
        invariant forall b :: b in entries <==> exists k :: 0 <= k < i && b in pools[k]
        invariant forall b :: b in entries ==> fresh(entries[b]) && entries[b].View() == Fresh
        invariant forall a, b :: a in entries && b in entries && a != b ==> entries[a] != entries[b]
      {
        for j := 0 to |pools[i]|
          invariant forall b :: b in entries <==> b in pools[i][..j] || exists k :: 0 <= k < i && b in pools[k]
          invariant forall b :: b in entries ==> fresh(entries[b]) && entries[b].View() == Fresh
          invariant forall a, b :: a in entries && b in entries && a != b ==> entries[a] != entries[b]
        {
          assert pools[i][..j + 1] == pools[i][..j] + [pools[i][j]];
          if pools[i][j] !in entries {
            var state := new BackendHealth.Healthy();
            entries := entries[pools[i][j] := state];
          }
        }
        assert pools[i][..|pools[i]|] == pools[i];
      }
      this.backendHealth, this.settings, this.telemetry := entries, settings, telemetry;
    }

    method RecordTransition(backend: Url, change: Transition)
      requires telemetry != null ==> telemetry.Valid()
      modifies telemetry
      ensures telemetry != null ==> telemetry.Valid()
      ensures telemetry != null ==> telemetry.history == old(telemetry.history) + [HealthTransition(backend, change)]
      ensures telemetry != null ==> telemetry.Counted() == old(telemetry.Counted())
      ensures telemetry != null ==> telemetry.backendFailures == old(telemetry.backendFailures)
    {
      if telemetry != null {
        telemetry.RecordHealthTransition(backend, change);
      }
    }

    /** The transitions that one outcome for `backend` reports. */
    ghost function Reports(m: Breakers, backend: Url, outcome: Event): seq<HealthTransition> {
      if backend !in m then []
      else
        var report := Report(settings, m[backend], outcome);
        if report.Some? then [HealthTransition(backend, report.value)] else []
    }

    lemma EntryStep(before: Breakers, backend: Url, e: Event)
      requires Distinct() && settings.Valid() && AllInv(settings, before)
      requires before.Keys == backendHealth.Keys && backend in backendHealth
      requires backendHealth[backend].View() == Step(settings, before[backend], e)
      requires forall b :: b in backendHealth && b != backend ==> backendHealth[b].View() == before[b]
      ensures View() == PoolStep(settings, before, PoolEvent(backend, e))
      ensures AllInv(settings, View())
    {
      StepKeepsInv(settings, before[backend], e);
    }

    method Outcome(backend: Url, e: Event) returns (report: Option<Transition>)
      requires PoolValid() && e.kind != Query
      modifies Objects()
      ensures PoolValid()
      ensures View() == PoolStep(settings, old(View()), PoolEvent(backend, e))
      ensures Reports(old(View()), backend, e)
           == if report.Some? then [HealthTransition(backend, report.value)] else []
    {
      ghost var before := View();
      if backend !in backendHealth {
        return None;
      }
      if e.kind == Success {
        report := backendHealth[backend].Succeed(settings);
      } else {
        report := backendHealth[backend].Fail(settings, e.at);
      }
      EntryStep(before, backend, e);
    }

    method RecordSuccess(backend: Url)
      requires Valid()
      modifies Objects(), telemetry
      ensures Valid()
      ensures View() == PoolStep(settings, old(View()), PoolEvent(backend, Event(Success, 0)))
      ensures telemetry != null ==>
                && telemetry.history == old(telemetry.history) + Reports(old(View()), backend, Event(Success, 0))
                && telemetry.Counted() == old(telemetry.Counted())
                && telemetry.backendFailures == old(telemetry.backendFailures)
    {
      hide PoolStep, PoolValid, View, Reports, LastOf;
      var report := Outcome(backend, Event(Success, 0));
      if report.Some? {
        RecordTransition(backend, report.value);
      }
    }

    method RecordFailure(backend: Url, now: Instant)
      requires Valid()
      modifies Objects(), telemetry
      ensures Valid()
      ensures View() == PoolStep(settings, old(View()), PoolEvent(backend, Event(Failure, now)))
      ensures telemetry != null ==>
                && telemetry.history == old(telemetry.history) + Reports(old(View()), backend, Event(Failure, now))
                && telemetry.Counted() == old(telemetry.Counted())
                && telemetry.backendFailures
                == if backend in backendHealth && backend in old(telemetry.backendFailures)
                   then Increment(old(telemetry.backendFailures), backend)
                   else old(telemetry.backendFailures)
    {
      hide PoolStep, PoolValid, View, Reports, LastOf;
      if backend in backendHealth && telemetry != null {
        telemetry.RecordBackendFailure(backend);
      }
      var report := Outcome(backend, Event(Failure, now));
      if report.Some? {
        RecordTransition(backend, report.value);
      }
    }

    /** Answers whether the backend is ejected, and turns an expired ejection into a probe. */
    method IsBackendEjected(backend: Url, now: Instant) returns (ejected: bool)
      requires PoolValid()
      modifies Objects()
      ensures PoolValid()
      ensures View() == PoolStep(settings, old(View()), PoolEvent(backend, Event(Query, now)))
      ensures ejected <==> backend in backendHealth && Ejected(old(View())[backend], now)
    {
      ghost var before := View();
      if backend !in backendHealth {
        return false;
      }
      var state := backendHealth[backend];
      if state.ejectedUntil.Some? && state.ejectedUntil.value > now {
        ejected := true;
      } else if state.ejectedUntil.Some? {
        state.ejectedUntil := None;
        state.probing := true;
        ejected := false;
      } else {
        ejected := false;
      }
      EntryStep(before, backend, Event(Query, now));
    }

    function IsBackendProbing(backend: Url): bool
      reads if backend in backendHealth then {backendHealth[backend]} else {}
    {
      backend in backendHealth && backendHealth[backend].probing
    }

    function IsBackendHealthy(backend: Url): bool
      reads if backend in backendHealth then {backendHealth[backend]} else {}
    {
      backend in backendHealth && backendHealth[backend].healthy
    }

    /** The eligible backends of a route: those, in the route's order, whose ejection deadline is
        absent or past at the reading of the clock that their query takes. */
    method HealthyBackends(backends: seq<Url>, clock: seq<Instant>) returns (eligible: seq<Url>)
      requires PoolValid()
      requires |clock| == |backends| && Ordered(clock)
      modifies Objects()
      ensures PoolValid()
      ensures View() == PoolRun(settings, old(View()), Queries(backends, clock))
      ensures eligible == AvailableOf(old(View()), backends, clock)
    {
      eligible := [];
      ghost var before := View();
      assert Queries(backends[..0], clock[..0]) == [];
      for i := 0 to |backends|
        invariant PoolValid()
        invariant View() == PoolRun(settings, before, Queries(backends[..i], clock[..i]))
        invariant eligible == Answer(settings, before, backends[..i], clock[..i])
      {
        ghost var here := View();
        var ejected := IsBackendEjected(backends[i], clock[i]);
        QueryAppends(before, backends, clock, i);
        if !ejected && (IsBackendHealthy(backends[i]) || IsBackendProbing(backends[i])) {
          eligible := eligible + [backends[i]];
        }
      }
      assert backends[..|backends|] == backends && clock[..|clock|] == clock;
      AnswerIsAvailable(settings, before, backends, clock);
    }

    lemma QueryAppends(before: Breakers, backends: seq<Url>, clock: seq<Instant>, i: nat)
      requires |clock| == |backends| && i < |backends|
      ensures var here := PoolRun(settings, before, Queries(backends[..i], clock[..i]));
              && PoolRun(settings, before, Queries(backends[..i + 1], clock[..i + 1]))
              == PoolStep(settings, here, PoolEvent(backends[i], Event(Query, clock[i])))
              && Answer(settings, before, backends[..i + 1], clock[..i + 1])
              == Answer(settings, before, backends[..i], clock[..i])
                 + if backends[i] in here && Offered(here[backends[i]], clock[i]) then [backends[i]] else []
    {
      assert backends[..i + 1][..i] == backends[..i] && clock[..i + 1][..i] == clock[..i];
      var q := Queries(backends[..i + 1], clock[..i + 1]);
      assert q[..|q| - 1] == Queries(backends[..i], clock[..i]);
    }

    method StatusOf(backend: Url, now: Instant) returns (status: bool)
      requires PoolValid() && backend in backendHealth
      modifies Objects()
      ensures PoolValid()
      ensures status == Available(old(View()), backend, now)
      ensures View() == old(View())[backend := OnQuery(old(View())[backend], now)]
    {
      var state := backendHealth[backend];
      assert Inv(settings, View()[backend]);
      var ejected := IsBackendEjected(backend, now);
      assert state.View() == View()[backend];
      var healthy := state.healthy && !ejected;
      var probing := state.probing && !ejected;
      status := healthy || probing;
    }

    /** The breakers after the status report has queried all but those in `rest`. */
    ghost function Queried(before: Breakers, rest: set<Url>, clock: map<Url, Instant>): Breakers
      requires before.Keys <= clock.Keys
    {
      map b | b in before :: if b in rest then before[b] else OnQuery(before[b], clock[b])
    }

    /** The report's entries for all backends but those in `rest`. */
    ghost predicate Reported(before: Breakers, rest: set<Url>, clock: map<Url, Instant>, statuses: map<Url, bool>)
      requires before.Keys <= clock.Keys
    {
      && statuses.Keys == before.Keys - rest
      && forall b :: b in statuses ==> statuses[b] == Available(before, b, clock[b])
    }

    lemma ReportedStep(before: Breakers, rest: set<Url>, clock: map<Url, Instant>, statuses: map<Url, bool>, b: Url)
      requires before.Keys <= clock.Keys && b in before && b in rest
      requires Reported(before, rest, clock, statuses)
      ensures var here := Queried(before, rest, clock);
              && b in here && here[b] == before[b]
              && here[b := OnQuery(before[b], clock[b])] == Queried(before, rest - {b}, clock)
              && Reported(before, rest - {b}, clock, statuses[b := Available(here, b, clock[b])])
    {
      assert Queried(before, rest, clock)[b := OnQuery(before[b], clock[b])] == Queried(before, rest - {b}, clock);
    }

    /** The status report names every known backend, and calls it healthy exactly when a request
        at that moment could be sent to it. */
    method BackendStatuses(clock: map<Url, Instant>) returns (statuses: map<Url, bool>)
      requires PoolValid() && backendHealth.Keys <= clock.Keys
      modifies Objects()
      ensures PoolValid()
      ensures View() == Queried(old(View()), {}, clock)
      ensures statuses.Keys == backendHealth.Keys
      ensures forall b :: b in statuses ==> statuses[b] == Available(old(View()), b, clock[b])
    {
      ghost var before := View();
      assert before == Queried(before, backendHealth.Keys, clock) && before.Keys == backendHealth.Keys;
      statuses := map[];
      var rest := backendHealth.Keys;
      assert Reported(before, rest, clock, statuses);
      while rest != {}
        invariant PoolValid() && rest <= backendHealth.Keys
        invariant View() == Queried(before, rest, clock)
        invariant Reported(before, rest, clock, statuses)
        decreases rest
      {
        hide PoolValid, View, Queried, OnQuery, Available, Reported;
        var backend :| backend in rest;
        ReportedStep(before, rest, clock, statuses, backend);
        var status := StatusOf(backend, clock[backend]);
        statuses := statuses[backend := status];
        rest := rest - {backend};
      }
    }
  }
}
