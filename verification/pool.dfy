/** All backends together: the manager's map from URL to breaker, and the query that the request
    path puts to it. */
module Pool {
  import opened Common
  import opened CircuitBreaker

  datatype PoolEvent = PoolEvent(backend: Url, event: Event)

  type Breakers = map<Url, Breaker>

  /** Events for an unknown backend have no effect. */
  function PoolStep(cfg: Settings, m: Breakers, e: PoolEvent): Breakers {
    if e.backend in m then m[e.backend := Step(cfg, m[e.backend], e.event)] else m
  }

  function PoolRun(cfg: Settings, m: Breakers, log: seq<PoolEvent>): Breakers {
    if log == [] then m else PoolStep(cfg, PoolRun(cfg, m, log[..|log| - 1]), log[|log| - 1])
  }

  lemma {:induction false} PoolRunSplits(cfg: Settings, m: Breakers, first: seq<PoolEvent>, second: seq<PoolEvent>)
    ensures PoolRun(cfg, m, first + second) == PoolRun(cfg, PoolRun(cfg, m, first), second)
  {
    if second == [] {
      assert first + second == first;
    } else {
      PoolRunSplits(cfg, m, first, second[..|second| - 1]);
      assert (first + second)[..|first + second| - 1] == first + second[..|second| - 1];
    }
  }

  /** The events of one backend. */
  function Only(log: seq<PoolEvent>, b: Url): seq<Event> {
    if log == [] then []
    else
      var e := log[|log| - 1];
      Only(log[..|log| - 1], b) + if e.backend == b then [e.event] else []
  }

  /** What happens to a backend is decided by its own events: those of the others never change it. */
  lemma {:induction false} BackendsAreIndependent(cfg: Settings, m: Breakers, log: seq<PoolEvent>, b: Url)
    requires b in m
    ensures PoolRun(cfg, m, log).Keys == m.Keys
    ensures PoolRun(cfg, m, log)[b] == Run(cfg, m[b], Only(log, b))
  {
    if log != [] {
      var front := log[..|log| - 1];
      BackendsAreIndependent(cfg, m, front, b);
      var e := log[|log| - 1];
      if e.backend == b {
        var own := Only(front, b) + [e.event];
        assert own[..|own| - 1] == Only(front, b);
      } else {
        assert Only(log, b) == Only(front, b);
      }
    }
  }

  ghost predicate AllInv(cfg: Settings, m: Breakers) {
    forall b :: b in m ==> Inv(cfg, m[b])
  }

  // ---------------------------------------------------------------------------------------------
  // The query for a route's backends
  // ---------------------------------------------------------------------------------------------

  /** One query per listed backend, each with its own reading of the clock. */
  function Queries(backends: seq<Url>, times: seq<Instant>): seq<PoolEvent>
    requires |backends| == |times|
  {
    seq(|backends|, i requires 0 <= i < |backends| => PoolEvent(backends[i], Event(Query, times[i])))
  }

  /** The answer, each backend judged in the state that the queries before it have left. */
  function Answer(cfg: Settings, m: Breakers, backends: seq<Url>, times: seq<Instant>): seq<Url>
    requires |backends| == |times|
  {
    if backends == [] then []
    else
      var n := |backends| - 1;
      var before := PoolRun(cfg, m, Queries(backends[..n], times[..n]));
      var b := backends[n];
      Answer(cfg, m, backends[..n], times[..n])
      + if b in before && Offered(before[b], times[n]) then [b] else []
  }

  predicate Available(m: Breakers, b: Url, now: Instant) {
    b in m && (m[b].ejectedUntil.None? || m[b].ejectedUntil.value <= now)
  }

  /** The listed backends, in order, whose deadline is absent or past at their reading. */
  function AvailableOf(m: Breakers, backends: seq<Url>, times: seq<Instant>): seq<Url>
    requires |backends| == |times|
  {
    if backends == [] then []
    else
      var n := |backends| - 1;
      AvailableOf(m, backends[..n], times[..n]) + if Available(m, backends[n], times[n]) then [backends[n]] else []
  }

  /** A run of queries leaves a breaker alone or turns its past ejection into a probe. */
  lemma {:induction false} QueriesOn(cfg: Settings, m: Breakers, backends: seq<Url>, times: seq<Instant>, b: Url, now: Instant)
    requires |backends| == |times| && b in m
    requires forall i :: 0 <= i < |times| ==> times[i] <= now
    ensures PoolRun(cfg, m, Queries(backends, times)).Keys == m.Keys
    ensures var after := PoolRun(cfg, m, Queries(backends, times))[b];
            after == m[b] || (Available(m, b, now) && after == m[b].(ejectedUntil := None, probing := true))
  {
    if backends != [] {
      var n := |backends| - 1;
      QueriesOn(cfg, m, backends[..n], times[..n], b, now);
      assert Queries(backends, times)[..n] == Queries(backends[..n], times[..n]);
    }
  }

  /** The answer is the available part of the list: same order, nothing added, nothing lost. */
  lemma {:induction false} AnswerIsAvailable(cfg: Settings, m: Breakers, backends: seq<Url>, times: seq<Instant>)
    requires |backends| == |times| && Ordered(times)
    requires AllInv(cfg, m)
    ensures Answer(cfg, m, backends, times) == AvailableOf(m, backends, times)
  {
    hide PoolRun, Queries;
    if backends != [] {
      var n := |backends| - 1;
      AnswerIsAvailable(cfg, m, backends[..n], times[..n]);
      if backends[n] in m {
        QueriesOn(cfg, m, backends[..n], times[..n], backends[n], times[n]);
      } else {
        StaysUnknown(cfg, m, Queries(backends[..n], times[..n]));
      }
    }
  }

  lemma StaysUnknown(cfg: Settings, m: Breakers, log: seq<PoolEvent>)
    ensures PoolRun(cfg, m, log).Keys == m.Keys
  {
  }

  lemma {:induction false} AnswerOnlyAvailable(m: Breakers, backends: seq<Url>, times: seq<Instant>, b: Url)
    requires |backends| == |times|
    ensures b in AvailableOf(m, backends, times)
       <==> exists i :: 0 <= i < |backends| && backends[i] == b && Available(m, b, times[i])
  {
    if backends != [] {
      var n := |backends| - 1;
      AnswerOnlyAvailable(m, backends[..n], times[..n], b);
      if b in AvailableOf(m, backends[..n], times[..n]) {
        var i :| 0 <= i < n && backends[..n][i] == b && Available(m, b, times[..n][i]);
        assert backends[i] == b && Available(m, b, times[i]);
      }
      if i :| 0 <= i < |backends| && backends[i] == b && Available(m, b, times[i]) {
        if i < n {
          assert backends[..n][i] == b && Available(m, b, times[..n][i]);
        }
      }
    }
  }

  /** A pool in which every backend starts fresh. */
  ghost predicate Started(m: Breakers) {
    forall b :: b in m ==> m[b] == Fresh
  }

  lemma {:induction false} ReachableInv(cfg: Settings, m: Breakers, log: seq<PoolEvent>)
    requires cfg.Valid() && Started(m)
    ensures AllInv(cfg, PoolRun(cfg, m, log))
  {
    StaysUnknown(cfg, m, log);
    forall b | b in m ensures Inv(cfg, PoolRun(cfg, m, log)[b]) {
      BackendsAreIndependent(cfg, m, log, b);
      RunKeepsInv(cfg, Fresh, Only(log, b));
    }
  }

  lemma EjectedIsUnavailable(cfg: Settings, m: Breakers, log: seq<PoolEvent>, e: PoolEvent, later: seq<PoolEvent>, now: Instant)
    requires cfg.Valid() && Started(m) && e.backend in m
    requires Run(cfg, Fresh, Only(log, e.backend) + [e.event]).ejectedUntil == Some(e.event.at + cfg.ejectionDuration)
    requires forall i :: 0 <= i < |later| ==> e.event.at <= later[i].event.at <= now
    requires now < e.event.at + cfg.ejectionDuration
    ensures !Available(PoolRun(cfg, m, log + [e] + later), e.backend, now)
  {
    var b := e.backend;
    var own, ownLater := Only(log, b), Only(later, b);
    hide Run, PoolRun, Only;
    OnlyAround(log, e, later);
    BackendsAreIndependent(cfg, m, log + [e] + later, b);
    OnlyTimes(later, b, e.event.at, now);
    EjectionHolds(cfg, own, e.event, ownLater, now);
    OfferedIffNotEjected(cfg, own + [e.event] + ownLater, now);
  }

  /** From the ejection of a backend until its deadline, no answer to any route names it, whatever
      happens to it and to the others in between. */
  lemma EjectedIsNotAnswered(cfg: Settings, m: Breakers, log: seq<PoolEvent>, e: PoolEvent, later: seq<PoolEvent>,
                             backends: seq<Url>, times: seq<Instant>)
    requires cfg.Valid() && Started(m) && e.backend in m
    requires Run(cfg, Fresh, Only(log, e.backend) + [e.event]).ejectedUntil == Some(e.event.at + cfg.ejectionDuration)
    requires |backends| == |times| && Ordered(times)
    requires forall i, j :: 0 <= i < |later| && 0 <= j < |times| ==> e.event.at <= later[i].event.at <= times[j]
    requires forall j :: 0 <= j < |times| ==> times[j] < e.event.at + cfg.ejectionDuration
    ensures e.backend !in Answer(cfg, PoolRun(cfg, m, log + [e] + later), backends, times)
  {
    hide PoolRun, Run, Answer, AvailableOf, Only, Available;
    var now := PoolRun(cfg, m, log + [e] + later);
    ReachableInv(cfg, m, log + [e] + later);
    AnswerIsAvailable(cfg, now, backends, times);
    AnswerOnlyAvailable(now, backends, times, e.backend);
    forall j | 0 <= j < |times| ensures !Available(now, e.backend, times[j]) {
      EjectedIsUnavailable(cfg, m, log, e, later, times[j]);
    }
  }

  lemma {:induction false} OnlySplits(first: seq<PoolEvent>, second: seq<PoolEvent>, b: Url)
    ensures Only(first + second, b) == Only(first, b) + Only(second, b)
  {
    if second == [] {
      assert first + second == first;
    } else {
      OnlySplits(first, second[..|second| - 1], b);
      assert (first + second)[..|first + second| - 1] == first + second[..|second| - 1];
    }
  }

  lemma OnlyAround(log: seq<PoolEvent>, e: PoolEvent, later: seq<PoolEvent>)
    ensures Only(log + [e] + later, e.backend) == Only(log, e.backend) + [e.event] + Only(later, e.backend)
  {
    OnlySplits(log + [e], later, e.backend);
    assert (log + [e])[..|log|] == log;
  }

  lemma {:induction false} OnlyTimes(log: seq<PoolEvent>, b: Url, from: Instant, to: Instant)
    requires forall i :: 0 <= i < |log| ==> from <= log[i].event.at <= to
    ensures forall i :: 0 <= i < |Only(log, b)| ==> from <= Only(log, b)[i].at <= to
  {
    if log != [] {
      OnlyTimes(log[..|log| - 1], b, from, to);
    }
  }
}
