/** The active health checks of `src/health/mod.rs`, and the startup check of `src/http/mod.rs` that
    looks for routes without a reachable backend. */
module Startup {
  import opened Common
  import opened CircuitBreaker
  import opened Pool
  import opened Configuration
  import opened Health

  /** The answer to one health request, and when it was recorded. */
  datatype Probe = Probe(status: nat, at: Instant)

  type Check = (Url, string)

  ghost predicate IsCheck(c: Config, check: Check) {
    exists i :: Checks(c, i, check.0, check.1)
  }

  /** Each backend is paired with each endpoint on which some route has it checked. */
  method UniqueBackendChecks(c: Config) returns (checks: set<Check>)
    ensures forall check :: check in checks <==> IsCheck(c, check)
  {
    checks := {};
    for i := 0 to |c.routes|
      invariant forall check :: check in checks <==> exists k :: k < i && Checks(c, k, check.0, check.1)
    {
      var endpoint := EndpointOf(c, c.routes[i]);
      var backends := c.routes[i].backends;
      for j := 0 to |backends|
        invariant forall check :: check in checks <==>
          (check.1 == endpoint && check.0 in backends[..j]) || exists k :: k < i && Checks(c, k, check.0, check.1)
      {
        checks := checks + {(backends[j], endpoint)};
        assert backends[..j + 1] == backends[..j] + [backends[j]];
      }
      assert backends[..|backends|] == backends;
      forall check: Check ensures (exists k :: k < i + 1 && Checks(c, k, check.0, check.1))
                      <==> Checks(c, i, check.0, check.1) || exists k :: k < i && Checks(c, k, check.0, check.1)
      {
      }
    }
  }

  /** A validated configuration checks no backend twice in a pass. */
  lemma OneCheckPerBackend(c: Config, a: Check, b: Check)
    requires ValidConfig(c) && IsCheck(c, a) && IsCheck(c, b) && a.0 == b.0
    ensures a == b
  {
  }

  /** What the manager is told about a probe. */
  function Told(successMin: nat, successMax: nat, p: Probe): Event {
    if successMin <= p.status <= successMax then Event(Success, 0) else Event(Failure, p.at)
  }

  ghost predicate AfterChecks(settings: Settings, before: Breakers, after: Breakers, done: set<Check>,
                              probes: map<Check, Probe>, successMin: nat, successMax: nat)
    requires done <= probes.Keys
  {
    && after.Keys == before.Keys
    && (forall check :: check in done && check.0 in before ==>
          after[check.0] == Step(settings, before[check.0], Told(successMin, successMax, probes[check])))
    && (forall b :: b in before && (forall check :: check in done ==> check.0 != b) ==> after[b] == before[b])
  }

  lemma OneMoreCheck(settings: Settings, before: Breakers, after: Breakers, done: set<Check>, check: Check,
                     probes: map<Check, Probe>, successMin: nat, successMax: nat)
    requires done <= probes.Keys && check in probes && check !in done
    requires forall other :: other in done ==> other.0 != check.0
    requires AfterChecks(settings, before, after, done, probes, successMin, successMax)
    ensures AfterChecks(settings, before, PoolStep(settings, after, PoolEvent(check.0, Told(successMin, successMax, probes[check]))),
                        done + {check}, probes, successMin, successMax)
  {
    hide Step;
    var next := PoolStep(settings, after, PoolEvent(check.0, Told(successMin, successMax, probes[check])));
    forall b | b in before && (forall other :: other in done + {check} ==> other.0 != b) ensures next[b] == before[b] {
      assert check in done + {check};
      assert forall other :: other in done ==> other in done + {check};
    }
  }

  /** One pass of active checks, in whatever order the set yields them, records exactly one outcome for
      every configured backend. */
  method RunActiveCheckPass(c: Config, manager: HealthManager, probes: map<Check, Probe>, successMin: nat, successMax: nat)
    requires ValidConfig(c) && manager.Valid()
    requires forall check :: IsCheck(c, check) ==> check in probes
    modifies manager.Objects(), manager.telemetry
    ensures manager.Valid() && manager.View().Keys == old(manager.View()).Keys
    ensures forall check :: IsCheck(c, check) && check.0 in manager.View() ==>
              manager.View()[check.0]
              == Step(manager.settings, old(manager.View())[check.0], Told(successMin, successMax, probes[check]))
  {
    ghost var before := manager.View();
    var checks := UniqueBackendChecks(c);
    ghost var all := checks;
    assert AfterChecks(manager.settings, before, before, {}, probes, successMin, successMax);
    while checks != {}
      invariant manager.Valid() && checks <= all
      invariant AfterChecks(manager.settings, before, manager.View(), all - checks, probes, successMin, successMax)
      decreases checks
    {
      hide AfterChecks, Step;
      var check :| check in checks;
      OneMoreCheck(manager.settings, before, manager.View(), all - checks, check, probes, successMin, successMax);
      var probe := probes[check];
      if successMin <= probe.status <= successMax {
        manager.RecordSuccess(check.0);
      } else {
        manager.RecordFailure(check.0, probe.at);
      }
      assert all - (checks - {check}) == all - checks + {check};
      checks := checks - {check};
    }
    assert all - {} == all;
  }

  // ---------------------------------------------------------------------------------------------
  // Dead pools
  // ---------------------------------------------------------------------------------------------

  /** The prefixes of the routes that satisfy `dead`, in order. */
  function PrefixesWhere(routes: seq<RouteConfig>, dead: seq<bool>): seq<string>
    requires |dead| == |routes|
  {
    if routes == [] then []
    else
      var n := |routes| - 1;
      PrefixesWhere(routes[..n], dead[..n]) + if dead[n] then [routes[n].pathPrefix] else []
  }

  /** A prefix is among them exactly when it is that of a route which satisfies `dead`. */
  lemma {:induction false} PrefixesMean(routes: seq<RouteConfig>, dead: seq<bool>, p: string)
    requires |dead| == |routes|
    ensures p in PrefixesWhere(routes, dead) <==> exists k :: 0 <= k < |routes| && dead[k] && routes[k].pathPrefix == p
  {
    if routes != [] {
      var n := |routes| - 1;
      PrefixesMean(routes[..n], dead[..n], p);
      if k :| 0 <= k < |routes| && dead[k] && routes[k].pathPrefix == p {
        if k < n {
          assert dead[..n][k] && routes[..n][k].pathPrefix == p;
        }
      }
      if k :| 0 <= k < n && dead[..n][k] && routes[..n][k].pathPrefix == p {
        assert dead[k] && routes[k].pathPrefix == p;
      }
    }
  }

  /** And they are in the order of their routes. */
  lemma {:induction false} PrefixesKeepOrder(routes: seq<RouteConfig>, dead: seq<bool>, more: seq<RouteConfig>, others: seq<bool>)
    requires |dead| == |routes| && |others| == |more|
    ensures PrefixesWhere(routes + more, dead + others) == PrefixesWhere(routes, dead) + PrefixesWhere(more, others)
    decreases |more|
  {
    if more == [] {
      assert routes + more == routes && dead + others == dead;
    } else {
      var n := |more| - 1;
      PrefixesKeepOrder(routes, dead, more[..n], others[..n]);
      assert (routes + more)[..|routes| + n] == routes + more[..n] && (dead + others)[..|routes| + n] == dead + others[..n];
    }
  }

  /** The readings of the clock: one for each query, route by route, and never backwards. */
  ghost predicate ClocksFit(c: Config, clocks: seq<seq<Instant>>) {
    && |clocks| == |c.routes|
    && (forall i :: 0 <= i < |clocks| ==> |clocks[i]| == |c.routes[i].backends| && Ordered(clocks[i]))
    && (forall i, j, k, l :: 0 <= i < j < |clocks| && 0 <= k < |clocks[i]| && 0 <= l < |clocks[j]| ==> clocks[i][k] <= clocks[j][l])
  }

  /** Route `i` has no backend available at the readings of its query. */
  ghost predicate PoolDead(c: Config, m: Breakers, clocks: seq<seq<Instant>>, i: nat)
    requires ClocksFit(c, clocks) && i < |clocks|
  {
    AvailableOf(m, c.routes[i].backends, clocks[i]) == []
  }

  /** `after` is what queries before `now` have left of `before`: some expired ejections are probes. */
  ghost predicate Queried(before: Breakers, after: Breakers, now: Instant) {
    && after.Keys == before.Keys
    && forall b :: b in before ==>
      after[b] == before[b] || (Available(before, b, now) && after[b] == before[b].(ejectedUntil := None, probing := true))
  }

  /** Queries do not change which backends are available later. */
  lemma {:induction false} QueriedStaysAvailable(before: Breakers, after: Breakers, now: Instant, backends: seq<Url>, times: seq<Instant>)
    requires Queried(before, after, now) && |backends| == |times|
    requires forall j :: 0 <= j < |times| ==> now <= times[j]
    ensures AvailableOf(after, backends, times) == AvailableOf(before, backends, times)
  {
    if backends != [] {
      var n := |backends| - 1;
      QueriedStaysAvailable(before, after, now, backends[..n], times[..n]);
    }
  }

  lemma QueriesQuery(settings: Settings, before: Breakers, after: Breakers, now: Instant,
                     backends: seq<Url>, times: seq<Instant>, later: Instant)
    requires Queried(before, after, now) && |backends| == |times| && now <= later
    requires forall j :: 0 <= j < |times| ==> now <= times[j] <= later
    ensures Queried(before, PoolRun(settings, after, Queries(backends, times)), later)
  {
    var then_ := PoolRun(settings, after, Queries(backends, times));
    StaysUnknown(settings, after, Queries(backends, times));
    forall b | b in before
      ensures then_[b] == before[b]
              || (Available(before, b, later) && then_[b] == before[b].(ejectedUntil := None, probing := true))
    {
      QueriesOn(settings, after, backends, times, b, later);
    }
  }

  /** A reading between those of route `i` and those of the routes before it. */
  ghost function StartOf(clocks: seq<seq<Instant>>, i: nat): (now: Instant)
    requires i <= |clocks|
  {
    if i == 0 then 0
    else if clocks[i - 1] == [] then StartOf(clocks, i - 1)
    else clocks[i - 1][|clocks[i - 1]| - 1]
  }

  lemma {:induction false} StartIsBetween(c: Config, clocks: seq<seq<Instant>>, i: nat)
    requires ClocksFit(c, clocks) && i <= |clocks|
    ensures forall j, l :: i <= j < |clocks| && 0 <= l < |clocks[j]| ==> StartOf(clocks, i) <= clocks[j][l]
    ensures i < |clocks| ==> StartOf(clocks, i) <= StartOf(clocks, i + 1)
    ensures i < |clocks| ==> forall l :: 0 <= l < |clocks[i]| ==> clocks[i][l] <= StartOf(clocks, i + 1)
  {
    if i > 0 {
      StartIsBetween(c, clocks, i - 1);
    }
  }

  /** The routes whose query comes back empty: exactly those without an available backend, although the
      queries of the routes before may already have turned expired ejections into probes. */
  method StartupDeadPools(c: Config, manager: HealthManager, clocks: seq<seq<Instant>>) returns (dead: seq<string>)
    requires manager.PoolValid() && ClocksFit(c, clocks)
    modifies manager.Objects()
    ensures manager.PoolValid()
    ensures dead == PrefixesWhere(c.routes, seq(|c.routes|, i requires 0 <= i < |c.routes| => PoolDead(c, old(manager.View()), clocks, i)))
  {
    ghost var m := manager.View();
    ghost var flags := seq(|c.routes|, i requires 0 <= i < |c.routes| => PoolDead(c, m, clocks, i));
    dead := [];
    assert Queried(m, manager.View(), StartOf(clocks, 0));
    for i := 0 to |c.routes|
      invariant manager.PoolValid() && Queried(m, manager.View(), StartOf(clocks, i))
      invariant dead == PrefixesWhere(c.routes[..i], flags[..i])
    {
      hide Queried, AvailableOf, StartOf, PoolRun, PrefixesWhere, ClocksFit, PoolDead, HealthManager.PoolValid,
           HealthManager.View;
      var route := c.routes[i];
      RouteQueried(c, manager.settings, m, manager.View(), clocks, i);
      PrefixesGrow(c.routes, flags, i);
      var eligible := manager.HealthyBackends(route.backends, clocks[i]);
      if eligible == [] {
        dead := dead + [route.pathPrefix];
      }
    }
    assert c.routes[..|c.routes|] == c.routes && flags[..|flags|] == flags;
  }

  /** The query of route `i`, after those of the routes before it. */
  lemma RouteQueried(c: Config, settings: Settings, before: Breakers, after: Breakers, clocks: seq<seq<Instant>>, i: nat)
    requires ClocksFit(c, clocks) && i < |clocks| && Queried(before, after, StartOf(clocks, i))
    ensures |clocks| == |c.routes| && |clocks[i]| == |c.routes[i].backends| && Ordered(clocks[i])
    ensures AvailableOf(after, c.routes[i].backends, clocks[i]) == [] <==> PoolDead(c, before, clocks, i)
    ensures Queried(before, PoolRun(settings, after, Queries(c.routes[i].backends, clocks[i])), StartOf(clocks, i + 1))
  {
    hide Queried, AvailableOf, StartOf, PoolRun;
    StartIsBetween(c, clocks, i);
    QueriedStaysAvailable(before, after, StartOf(clocks, i), c.routes[i].backends, clocks[i]);
    QueriesQuery(settings, before, after, StartOf(clocks, i), c.routes[i].backends, clocks[i], StartOf(clocks, i + 1));
  }

  lemma PrefixesGrow(routes: seq<RouteConfig>, dead: seq<bool>, i: nat)
    requires |dead| == |routes| && i < |routes|
    ensures PrefixesWhere(routes[..i + 1], dead[..i + 1])
         == PrefixesWhere(routes[..i], dead[..i]) + if dead[i] then [routes[i].pathPrefix] else []
  {
    assert routes[..i + 1][..i] == routes[..i] && dead[..i + 1][..i] == dead[..i];
  }

  // ---------------------------------------------------------------------------------------------
  // The startup check
  // ---------------------------------------------------------------------------------------------

  /** The backend has failed its check. */
  ghost predicate FailedCheck(c: Config, probes: map<Check, Probe>, successMin: nat, successMax: nat, b: Url) {
    exists check :: check in probes && IsCheck(c, check) && check.0 == b
                    && !(successMin <= probes[check].status <= successMax)
  }

  /** No query comes after an ejection that a failed check of its backend may have started is over. */
  ghost predicate BeforeDeadlines(c: Config, probes: map<Check, Probe>, successMin: nat, successMax: nat,
                                  ejectionDuration: nat, clocks: seq<seq<Instant>>)
    requires ClocksFit(c, clocks)
  {
    forall i, j, check |
      0 <= i < |clocks| && 0 <= j < |clocks[i]| && check in probes && IsCheck(c, check)
      && check.0 == c.routes[i].backends[j] && Told(successMin, successMax, probes[check]).kind == Failure ::
      clocks[i][j] < probes[check].at + ejectionDuration
  }

  lemma CheckedOnce(settings: Settings, told: Event, now: Instant)
    requires settings.Valid() && told.kind != Query
    requires told.kind == Failure ==> now < told.at + settings.ejectionDuration
    ensures var b := Step(settings, Fresh, told);
            && OnQuery(b, now) == b
            && (Available(map["" := b], "", now) <==> told.kind == Success || settings.failureThreshold > 1)
  {
  }

  lemma RouteBackendChecked(c: Config, i: nat, j: nat) returns (check: Check)
    requires i < |c.routes| && j < |c.routes[i].backends|
    ensures check.0 == c.routes[i].backends[j] && IsCheck(c, check)
  {
    check := (c.routes[i].backends[j], EndpointOf(c, c.routes[i]));
    assert Checks(c, i, check.0, check.1);
  }

  /** After one pass over a fresh pool, a backend is unavailable exactly when it failed its check and one
      failure is enough. */
  lemma AvailableAfterPass(c: Config, m: Breakers, settings: Settings, probes: map<Check, Probe>,
                           successMin: nat, successMax: nat, clocks: seq<seq<Instant>>, i: nat, j: nat)
    requires ValidConfig(c) && settings.Valid() && ClocksFit(c, clocks)
    requires forall check :: IsCheck(c, check) ==> check in probes && check.0 in m
    requires forall check :: IsCheck(c, check) ==> m[check.0] == Step(settings, Fresh, Told(successMin, successMax, probes[check]))
    requires BeforeDeadlines(c, probes, successMin, successMax, settings.ejectionDuration, clocks)
    requires i < |c.routes| && j < |c.routes[i].backends|
    ensures var b := c.routes[i].backends[j];
            && b in m && OnQuery(m[b], clocks[i][j]) == m[b]
            && (Available(m, b, clocks[i][j])
                <==> !(settings.failureThreshold == 1 && FailedCheck(c, probes, successMin, successMax, b)))
  {
    hide ValidConfig, Step, OnQuery;
    var check := RouteBackendChecked(c, i, j);
    var told := Told(successMin, successMax, probes[check]);
    CheckedOnce(settings, told, clocks[i][j]);
    forall other | IsCheck(c, other) && other.0 == check.0 ensures other == check {
      OneCheckPerBackend(c, other, check);
    }
  }

  /** The startup check reports exactly the routes all of whose backends have failed when a single
      failure trips a backend, and no route at all otherwise. */
  method RunStartupHealthCheck(c: Config, manager: HealthManager, probes: map<Check, Probe>, successMin: nat, successMax: nat,
                               clocks: seq<seq<Instant>>)
      returns (dead: seq<string>)
    requires ValidConfig(c) && manager.Valid() && Started(manager.View())
    requires forall check :: IsCheck(c, check) ==> check in probes && check.0 in manager.View()
    requires ClocksFit(c, clocks) && BeforeDeadlines(c, probes, successMin, successMax, manager.settings.ejectionDuration, clocks)
    modifies manager.Objects(), manager.telemetry
    ensures dead == PrefixesWhere(c.routes, seq(|c.routes|, i requires 0 <= i < |c.routes| =>
                      manager.settings.failureThreshold == 1
                      && forall j :: 0 <= j < |c.routes[i].backends| ==>
                        FailedCheck(c, probes, successMin, successMax, c.routes[i].backends[j])))
  {
    RunActiveCheckPass(c, manager, probes, successMin, successMax);
    ghost var m := manager.View();
    dead := StartupDeadPools(c, manager, clocks);
    ghost var found := seq(|c.routes|, i requires 0 <= i < |c.routes| => PoolDead(c, m, clocks, i));
    ghost var all := seq(|c.routes|, i requires 0 <= i < |c.routes| =>
                      manager.settings.failureThreshold == 1
                      && forall j :: 0 <= j < |c.routes[i].backends| ==>
                        FailedCheck(c, probes, successMin, successMax, c.routes[i].backends[j]));
    forall i | 0 <= i < |c.routes| ensures found[i] == all[i] {
      DeadMeansFailed(c, m, manager.settings, probes, successMin, successMax, clocks, i);
    }
    assert found == all;
  }

  lemma DeadMeansFailed(c: Config, m: Breakers, settings: Settings, probes: map<Check, Probe>,
                        successMin: nat, successMax: nat, clocks: seq<seq<Instant>>, i: nat)
    requires ValidConfig(c) && settings.Valid() && ClocksFit(c, clocks)
    requires forall check :: IsCheck(c, check) ==> check in probes && check.0 in m
    requires forall check :: IsCheck(c, check) ==> m[check.0] == Step(settings, Fresh, Told(successMin, successMax, probes[check]))
    requires BeforeDeadlines(c, probes, successMin, successMax, settings.ejectionDuration, clocks)
    requires i < |c.routes|
    ensures PoolDead(c, m, clocks, i)
       <==> settings.failureThreshold == 1
            && forall j :: 0 <= j < |c.routes[i].backends| ==>
              FailedCheck(c, probes, successMin, successMax, c.routes[i].backends[j])
  {
    hide Step, FailedCheck, BeforeDeadlines, Available;
    var backends := c.routes[i].backends;
    forall j | 0 <= j < |backends|
      ensures Available(m, backends[j], clocks[i][j])
         <==> !(settings.failureThreshold == 1 && FailedCheck(c, probes, successMin, successMax, backends[j]))
    {
      AvailableAfterPass(c, m, settings, probes, successMin, successMax, clocks, i, j);
    }
    EmptyMeansNoneAvailable(m, backends, clocks[i]);
    assert backends != [];
  }

  lemma {:induction false} EmptyMeansNoneAvailable(m: Breakers, backends: seq<Url>, times: seq<Instant>)
    requires |backends| == |times|
    ensures AvailableOf(m, backends, times) == [] <==> forall j :: 0 <= j < |backends| ==> !Available(m, backends[j], times[j])
  {
    if backends != [] {
      var n := |backends| - 1;
      EmptyMeansNoneAvailable(m, backends[..n], times[..n]);
    }
  }

  // ---------------------------------------------------------------------------------------------
  // With others at work
  // ---------------------------------------------------------------------------------------------

  /** A route is found dead although outcomes and queries of others may come at any time: the query of its
      `j`-th backend comes after the first `cuts[j]` events of the log, at time `times[j]`. */
  ghost predicate FoundDead(settings: Settings, m: Breakers, log: seq<PoolEvent>, backends: seq<Url>, cuts: seq<nat>, times: seq<Instant>) {
    && |cuts| == |times| == |backends|
    && forall j :: 0 <= j < |backends| ==>
      && cuts[j] <= |log|
      && var state := PoolRun(settings, m, log[..cuts[j]]);
         !(backends[j] in state && Offered(state[backends[j]], times[j]))
  }

  lemma {:induction false} FailuresSplit(first: seq<Event>, second: seq<Event>)
    ensures Failures(first + second) == Failures(first) + Failures(second)
  {
    if second == [] {
      assert first + second == first;
    } else {
      FailuresSplit(first, second[..|second| - 1]);
      assert (first + second)[..|first + second| - 1] == first + second[..|second| - 1];
    }
  }

  /** Whatever is recorded by whomever, a route is only found dead when each of its backends has had
      `failureThreshold` failures. */
  lemma DeadNeedsFailures(settings: Settings, m: Breakers, log: seq<PoolEvent>,
                          backends: seq<Url>, cuts: seq<nat>, times: seq<Instant>, j: nat)
    requires settings.Valid() && Started(m) && FoundDead(settings, m, log, backends, cuts, times)
    requires j < |backends| && backends[j] in m
    ensures Failures(Only(log, backends[j])) >= settings.failureThreshold
  {
    var b, before := backends[j], log[..cuts[j]];
    BackendsAreIndependent(settings, m, before, b);
    OfferedIffNotEjected(settings, Only(before, b), times[j]);
    UnavailableNeedsFailures(settings, Only(before, b));
    hide Only, Run, PoolRun, Failures;
    assert before + log[cuts[j]..] == log;
    OnlySplits(before, log[cuts[j]..], b);
    FailuresSplit(Only(before, b), Only(log[cuts[j]..], b));
  }

  /** As long as no backend has had more than `n` failures, the route is not found dead. */
  ghost predicate NeverDead(settings: Settings, m: Breakers, backends: seq<Url>, n: nat) {
    forall log, cuts, times | (forall b :: b in backends ==> Failures(Only(log, b)) <= n) ::
      !FoundDead(settings, m, log, backends, cuts, times)
  }

  /** `n` failures of every listed backend, at time zero. */
  function FailAll(backends: seq<Url>, n: nat): seq<PoolEvent> {
    if backends == [] then []
    else
      var front, b := backends[..|backends| - 1], backends[|backends| - 1];
      FailAll(front, n) + if b in front then [] else Repeat(PoolEvent(b, Event(Failure, 0)), n)
  }

  function Repeat<T>(x: T, n: nat): seq<T> {
    seq(n, _ => x)
  }

  lemma {:induction false} OnlyRepeats(e: PoolEvent, n: nat, b: Url)
    ensures Only(Repeat(e, n), b) == if e.backend == b then Repeat(e.event, n) else []
  {
    if n > 0 {
      OnlyRepeats(e, n - 1, b);
      assert Repeat(e, n)[..n - 1] == Repeat(e, n - 1);
      assert Repeat(e.event, n) == Repeat(e.event, n - 1) + [e.event];
    }
  }

  lemma {:induction false} AllHaveFailed(backends: seq<Url>, n: nat, b: Url)
    ensures Only(FailAll(backends, n), b) == if b in backends then Repeat(Event(Failure, 0), n) else []
  {
    if backends != [] {
      var front, last := backends[..|backends| - 1], backends[|backends| - 1];
      AllHaveFailed(front, n, b);
      assert b in backends <==> b in front || b == last;
      if last in front {
        assert FailAll(front, n) + [] == FailAll(front, n);
      } else {
        OnlySplits(FailAll(front, n), Repeat(PoolEvent(last, Event(Failure, 0)), n), b);
        OnlyRepeats(PoolEvent(last, Event(Failure, 0)), n, b);
      }
    }
  }

  lemma {:induction false} RepeatedFailures(n: nat)
    ensures Failures(Repeat(Event(Failure, 0), n)) == TrailingFailures(Repeat(Event(Failure, 0), n)) == n
  {
    if n > 0 {
      RepeatedFailures(n - 1);
      assert Repeat(Event(Failure, 0), n)[..n - 1] == Repeat(Event(Failure, 0), n - 1);
    }
  }

  lemma FailedEnough(settings: Settings, m: Breakers, backends: seq<Url>, b: Url)
    requires settings.Valid() && Started(m) && b in backends && b in m
    ensures var n := settings.failureThreshold;
            var state := PoolRun(settings, m, FailAll(backends, n));
            && b in state && !Offered(state[b], 0)
            && Failures(Only(FailAll(backends, n), b)) == n
  {
    var n := settings.failureThreshold;
    BackendsAreIndependent(settings, m, FailAll(backends, n), b);
    AllHaveFailed(backends, n, b);
    RepeatedFailures(n);
    RepeatedFailures(n - 1);
    var failures := Repeat(Event(Failure, 0), n);
    assert failures[..n - 1] == Repeat(Event(Failure, 0), n - 1);
    FailuresTripOnTime(settings, Fresh, failures);
  }

  /** However the queries and the outcomes of others fall, with at most `n` failures per backend no route
      is found dead exactly when the threshold is above `n`. The startup pass adds one failure at most, and
      so does the first background pass, which runs beside it. */
  lemma NeverDeadIff(settings: Settings, m: Breakers, backends: seq<Url>, n: nat)
    requires settings.Valid() && Started(m) && backends != [] && forall b :: b in backends ==> b in m
    ensures NeverDead(settings, m, backends, n) <==> n < settings.failureThreshold
  {
    hide FoundDead, Failures, Only, PoolRun, FailAll;
    if n < settings.failureThreshold {
      forall log, cuts, times | forall b :: b in backends ==> Failures(Only(log, b)) <= n
        ensures !FoundDead(settings, m, log, backends, cuts, times)
      {
        if FoundDead(settings, m, log, backends, cuts, times) {
          DeadNeedsFailures(settings, m, log, backends, cuts, times, 0);
        }
      }
    } else {
      AllFoundDead(settings, m, backends);
    }
  }

  lemma AllFoundDead(settings: Settings, m: Breakers, backends: seq<Url>)
    requires settings.Valid() && Started(m) && forall b :: b in backends ==> b in m
    ensures var log := FailAll(backends, settings.failureThreshold);
            && FoundDead(settings, m, log, backends, seq(|backends|, _ => |log|), seq(|backends|, _ => 0))
            && forall b :: b in backends ==> Failures(Only(log, b)) == settings.failureThreshold
  {
    hide Failures, Only, PoolRun, FailAll, Offered;
    var log := FailAll(backends, settings.failureThreshold);
    assert log[..|log|] == log;
    forall b | b in backends
      ensures b in PoolRun(settings, m, log) && !Offered(PoolRun(settings, m, log)[b], 0)
      ensures Failures(Only(log, b)) == settings.failureThreshold
    {
      FailedEnough(settings, m, backends, b);
    }
  }
}
