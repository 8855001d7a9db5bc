/** Forwarding as `src/http/mod.rs` does it, on the shared objects: each attempt asks the health manager,
    draws a ticket, forwards, and tells the health manager and the metrics. Other tasks use the same
    objects in between; what they do, the replies and the clock are arbitrary. */
module Forwarding {
  import opened Common
  import opened Configuration
  import opened CircuitBreaker
  import opened Pool
  import opened Health
  import opened Balancing
  import opened Metrics
  import opened Retry
  import RetryProperties

  // ---------------------------------------------------------------------------------------------
  // What one attempt meets, and what it leaves
  // ---------------------------------------------------------------------------------------------

  /** What happens around one attempt. */
  datatype World = World(
    headDelay: Instant,
    others: seq<PoolEvent>,          // outcomes and queries of others, before the query
    draws: seq<Balancing.Request>,   // tickets drawn by others
    clock: seq<Instant>,             // the readings that the query takes
    reply: Reply,
    forwardTime: Instant,
    during: seq<PoolEvent>,          // outcomes and queries of others, before the outcome is recorded
    recorded: Instant,               // when it is recorded
    checkDelay: Instant,
    backoffDelay: Instant,
    oversleep: Instant)

  /** The shared state that attempts depend on. */
  datatype Shared = Shared(pool: Breakers, tickets: TicketMap)

  predicate ReadingFits(route: RouteConfig, w: World) {
    |w.clock| == |route.backends| && Ordered(w.clock)
  }

  predicate ReadingsFit(route: RouteConfig, worlds: seq<World>) {
    forall k :: 0 <= k < |worlds| ==> ReadingFits(route, worlds[k])
  }

  function Ticket(m: TicketMap, route: RouteConfig): nat {
    if route.pathPrefix in m then m[route.pathPrefix].counter else 0
  }

  /** The breakers that the query meets. */
  function Met(settings: Settings, sh: Shared, w: World): Breakers {
    PoolRun(settings, sh.pool, w.others)
  }

  function TurnAt(settings: Settings, sh: Shared, route: RouteConfig, w: World): Turn
    requires ReadingFits(route, w)
  {
    Turn(w.headDelay, AvailableOf(Met(settings, sh, w), route.backends, w.clock),
         Ticket(ServeAll(sh.tickets, w.draws), route),
         w.reply, w.forwardTime, w.checkDelay, w.backoffDelay, w.oversleep)
  }

  /** The query has been answered and the balancer asked. */
  function Chosen(settings: Settings, sh: Shared, route: RouteConfig, w: World, attempted: set<Url>): Shared
    requires ReadingFits(route, w)
  {
    Shared(PoolRun(settings, Met(settings, sh, w), Queries(route.backends, w.clock)),
           Serve(ServeAll(sh.tickets, w.draws),
                 Balancing.Request(route.pathPrefix, Eligible(TurnAt(settings, sh, route, w).healthy, attempted))))
  }

  /** The outcome of an exchange as the health manager hears of it. */
  function Told(p: Policy, route: RouteConfig, w: World, backend: Url): PoolEvent {
    PoolEvent(backend, if Succeeded(p, route, w.reply) then Event(Success, 0) else Event(Failure, w.recorded))
  }

  function Heard(settings: Settings, sh: Shared, p: Policy, route: RouteConfig, w: World, backend: Url): Shared {
    sh.(pool := PoolStep(settings, PoolRun(settings, sh.pool, w.during), Told(p, route, w, backend)))
  }

  /** The shared state after an attempt. */
  function Next(settings: Settings, sh: Shared, p: Policy, route: RouteConfig, w: World, attempted: set<Url>, it: Iteration): Shared
    requires ReadingFits(route, w)
  {
    match it
    case Stopped(run) =>
      if run.ending == BudgetExhausted then sh
      else Chosen(settings, sh, route, w, attempted)
    case Returned(backend, _, _, _) => Heard(settings, Chosen(settings, sh, route, w, attempted), p, route, w, backend)
    case Again(backend, _, _, _) => Heard(settings, Chosen(settings, sh, route, w, attempted), p, route, w, backend)
  }

  // ---------------------------------------------------------------------------------------------
  // The whole loop on the shared state
  // ---------------------------------------------------------------------------------------------

  function IterateAt(settings: Settings, sh: Shared, p: Policy, route: RouteConfig, worlds: seq<World>,
                     attempt: nat, attempted: set<Url>, elapsed: Instant): Iteration
    requires 1 <= attempt <= |worlds| && ReadingsFit(route, worlds)
  {
    Iterate(p, route, TurnAt(settings, sh, route, worlds[attempt - 1]), attempt, attempted, elapsed)
  }

  /** The turns that the attempts from `attempt` on meet. Those that are not made are filled up. */
  function Turns(settings: Settings, sh: Shared, p: Policy, route: RouteConfig, worlds: seq<World>,
                 attempt: nat, attempted: set<Url>, elapsed: Instant): (turns: seq<Turn>)
    requires 1 <= attempt <= Attempts(p) <= |worlds| && ReadingsFit(route, worlds)
    ensures |turns| == Attempts(p) - attempt + 1
    decreases Attempts(p) - attempt
  {
    var turn := TurnAt(settings, sh, route, worlds[attempt - 1]);
    var it := IterateAt(settings, sh, p, route, worlds, attempt, attempted, elapsed);
    [turn] + match it
    case Again(backend, _, _, next) =>
      Turns(settings, Next(settings, sh, p, route, worlds[attempt - 1], attempted, it), p, route, worlds,
            attempt + 1, attempted + {backend}, next)
    case _ => seq(Attempts(p) - attempt, _ => turn)
  }

  /** The breakers that their queries meet. */
  function States(settings: Settings, sh: Shared, p: Policy, route: RouteConfig, worlds: seq<World>,
                  attempt: nat, attempted: set<Url>, elapsed: Instant): (states: seq<Breakers>)
    requires 1 <= attempt <= Attempts(p) <= |worlds| && ReadingsFit(route, worlds)
    ensures |states| == Attempts(p) - attempt + 1
    decreases Attempts(p) - attempt
  {
    var state := Met(settings, sh, worlds[attempt - 1]);
    var it := IterateAt(settings, sh, p, route, worlds, attempt, attempted, elapsed);
    [state] + match it
    case Again(backend, _, _, next) =>
      States(settings, Next(settings, sh, p, route, worlds[attempt - 1], attempted, it), p, route, worlds,
             attempt + 1, attempted + {backend}, next)
    case _ => seq(Attempts(p) - attempt, _ => state)
  }

  /** The shared state that they leave. */
  function Final(settings: Settings, sh: Shared, p: Policy, route: RouteConfig, worlds: seq<World>,
                 attempt: nat, attempted: set<Url>, elapsed: Instant): Shared
    requires 1 <= attempt <= Attempts(p) <= |worlds| && ReadingsFit(route, worlds)
    decreases Attempts(p) - attempt
  {
    var it := IterateAt(settings, sh, p, route, worlds, attempt, attempted, elapsed);
    var next := Next(settings, sh, p, route, worlds[attempt - 1], attempted, it);
    match it
    case Again(backend, _, _, later) => Final(settings, next, p, route, worlds, attempt + 1, attempted + {backend}, later)
    case _ => next
  }

  // ---------------------------------------------------------------------------------------------
  // No request into an ejection
  // ---------------------------------------------------------------------------------------------

  /** The backend is listed and available at the reading that its query takes. */
  ghost predicate AvailableThen(m: Breakers, route: RouteConfig, w: World, b: Url)
    requires ReadingFits(route, w)
  {
    exists j :: 0 <= j < |route.backends| && route.backends[j] == b && Available(m, b, w.clock[j])
  }

  lemma TurnsUnroll(settings: Settings, sh: Shared, p: Policy, route: RouteConfig, worlds: seq<World>,
                    turns: seq<Turn>, attempt: nat, attempted: set<Url>, elapsed: Instant)
    requires 1 <= attempt <= Attempts(p) <= |worlds| && ReadingsFit(route, worlds)
    requires |turns| == Attempts(p)
    requires turns[attempt - 1..] == Turns(settings, sh, p, route, worlds, attempt, attempted, elapsed)
    ensures var it := IterateAt(settings, sh, p, route, worlds, attempt, attempted, elapsed);
            var next := Next(settings, sh, p, route, worlds[attempt - 1], attempted, it);
            && turns[attempt - 1] == TurnAt(settings, sh, route, worlds[attempt - 1])
            && (it.Again? ==>
                  && attempt < p.maxAttempts
                  && turns[attempt..] == Turns(settings, next, p, route, worlds, attempt + 1, attempted + {it.backend}, it.next))
            && Final(settings, sh, p, route, worlds, attempt, attempted, elapsed)
            == if it.Again? then Final(settings, next, p, route, worlds, attempt + 1, attempted + {it.backend}, it.next)
               else next
  {
    hide Next, Iterate, TurnAt;
    assert turns[attempt - 1] == turns[attempt - 1..][0];
    assert turns[attempt..] == turns[attempt - 1..][1..];
    var it := IterateAt(settings, sh, p, route, worlds, attempt, attempted, elapsed);
    if it.Again? {
      RetryProperties.AgainIsRetryable(p, route, TurnAt(settings, sh, route, worlds[attempt - 1]), attempt, attempted, elapsed);
    }
  }

  lemma StatesUnroll(settings: Settings, sh: Shared, p: Policy, route: RouteConfig, worlds: seq<World>,
                     attempt: nat, attempted: set<Url>, elapsed: Instant)
    requires 1 <= attempt <= Attempts(p) <= |worlds| && ReadingsFit(route, worlds)
    ensures var it := IterateAt(settings, sh, p, route, worlds, attempt, attempted, elapsed);
            var next := Next(settings, sh, p, route, worlds[attempt - 1], attempted, it);
            var states := States(settings, sh, p, route, worlds, attempt, attempted, elapsed);
            && states[0] == Met(settings, sh, worlds[attempt - 1])
            && (it.Again? ==>
                  && attempt < p.maxAttempts
                  && states[1..] == States(settings, next, p, route, worlds, attempt + 1, attempted + {it.backend}, it.next))
  {
    hide Next, Iterate, TurnAt, Met;
    var it := IterateAt(settings, sh, p, route, worlds, attempt, attempted, elapsed);
    if it.Again? {
      RetryProperties.AgainIsRetryable(p, route, TurnAt(settings, sh, route, worlds[attempt - 1]), attempt, attempted, elapsed);
    }
  }

  lemma HealthyIsAvailable(settings: Settings, sh: Shared, route: RouteConfig, w: World, b: Url)
    requires ReadingFits(route, w) && b in TurnAt(settings, sh, route, w).healthy
    ensures AvailableThen(Met(settings, sh, w), route, w, b)
  {
    AnswerOnlyAvailable(Met(settings, sh, w), route.backends, w.clock, b);
  }

  /** Every backend that a request is sent to is known and has no ejection deadline ahead when the attempt
      asks for it, whatever the other tasks have recorded by then. */
  lemma {:induction false} SentToAvailable(settings: Settings, sh: Shared, p: Policy, route: RouteConfig, worlds: seq<World>,
                                           turns: seq<Turn>, attempt: nat, attempted: set<Url>, elapsed: Instant)
    requires 1 <= attempt <= Attempts(p) <= |worlds| && ReadingsFit(route, worlds)
    requires |turns| == Attempts(p)
    requires turns[attempt - 1..] == Turns(settings, sh, p, route, worlds, attempt, attempted, elapsed)
    ensures var tried := ForwardsOf(RetryLoop(p, route, turns, attempt, attempted, elapsed).log);
            var states := States(settings, sh, p, route, worlds, attempt, attempted, elapsed);
            |tried| <= |states| && forall i :: 0 <= i < |tried| ==> AvailableThen(states[i], route, worlds[attempt - 1 + i], tried[i])
    decreases Attempts(p) - attempt
  {
    hide Iterate, RetryLoop, ForwardsOf, OutcomesOf, TallyOf, Next, Turns, States, TurnAt, AvailableThen, Met;
    var w := worlds[attempt - 1];
    TurnsUnroll(settings, sh, p, route, worlds, turns, attempt, attempted, elapsed);
    StatesUnroll(settings, sh, p, route, worlds, attempt, attempted, elapsed);
    RetryProperties.LoopCalls(p, route, turns, attempt, attempted, elapsed);
    var it := IterateAt(settings, sh, p, route, worlds, attempt, attempted, elapsed);
    if it.Again? || it.Returned? {
      HealthyIsAvailable(settings, sh, route, w, it.backend);
    }
    if it.Again? {
      var next := Next(settings, sh, p, route, w, attempted, it);
      SentToAvailable(settings, next, p, route, worlds, turns, attempt + 1, attempted + {it.backend}, it.next);
      var rest := ForwardsOf(RetryProperties.Rest(p, route, turns, attempt, attempted, elapsed).log);
      var states := States(settings, sh, p, route, worlds, attempt, attempted, elapsed);
      var tried := [it.backend] + rest;
      forall i | 0 <= i < |tried| ensures i < |states| && AvailableThen(states[i], route, worlds[attempt - 1 + i], tried[i]) {
        assert i > 0 ==> tried[i] == rest[i - 1] && states[i] == states[1..][i - 1];
        assert worlds[attempt - 1 + i] == worlds[attempt + i - 1];
      }
    }
  }

  /** The query for `b` that follows the first `cut` events of a log falls into an ejection of `b`. */
  ghost predicate InEjection(settings: Settings, log: seq<PoolEvent>, cut: nat, b: Url, now: Instant)
    requires cut <= |log|
  {
    exists k :: 0 <= k < cut && EjectsAt(settings, log, k, b) && now < log[k].event.at + settings.ejectionDuration
  }

  /** Event `k` of the log ejects `b`. */
  ghost predicate EjectsAt(settings: Settings, log: seq<PoolEvent>, k: nat, b: Url)
    requires k < |log|
  {
    log[k].backend == b
    && CircuitBreaker.Run(settings, Fresh, Only(log[..k], b) + [log[k].event]).ejectedUntil
    == Some(log[k].event.at + settings.ejectionDuration)
  }

  /** Every healthy backend of a turn was offered by a query of its own: that for the `j`-th backend of the
      route comes after the first `cuts[j]` events of the log, at time `times[j]`, which is not before them. */
  ghost predicate AskedIn(settings: Settings, m: Breakers, log: seq<PoolEvent>, route: RouteConfig, turn: Turn, cuts: seq<nat>, times: seq<Instant>) {
    && |cuts| == |times| == |route.backends|
    && (forall j :: 0 <= j < |cuts| ==> cuts[j] <= |log|)
    && (forall i, j :: 0 <= j < |cuts| && 0 <= i < cuts[j] ==> log[i].event.at <= times[j])
    && forall b :: b in turn.healthy ==> exists j :: OfferedTo(settings, m, log, route, cuts, times, b, j)
  }

  ghost predicate OfferedTo(settings: Settings, m: Breakers, log: seq<PoolEvent>, route: RouteConfig, cuts: seq<nat>, times: seq<Instant>, b: Url, j: int)
    requires |cuts| == |times| == |route.backends| && forall j :: 0 <= j < |cuts| ==> cuts[j] <= |log|
  {
    0 <= j < |route.backends| && route.backends[j] == b
    && var state := PoolRun(settings, m, log[..cuts[j]]);
       b in state && Offered(state[b], times[j])
  }

  lemma EjectedIsNotOffered(settings: Settings, m: Breakers, log: seq<PoolEvent>, cut: nat, b: Url, now: Instant, k: nat)
    requires settings.Valid() && Started(m) && b in m && k < cut <= |log|
    requires forall i :: k < i < cut ==> log[k].event.at <= log[i].event.at <= now
    requires EjectsAt(settings, log, k, b) && log[k].event.at <= now < log[k].event.at + settings.ejectionDuration
    ensures var state := PoolRun(settings, m, log[..cut]); b in state && !Offered(state[b], now)
  {
    BackendsAreIndependent(settings, m, log[..cut], b);
    hide PoolRun, CircuitBreaker.Run, Only, Offered;
    var later := log[k + 1..cut];
    assert log[..k] + [log[k]] + later == log[..cut];
    OnlyAround(log[..k], log[k], later);
    OnlyTimes(later, b, log[k].event.at, now);
    CircuitBreaker.EjectionHolds(settings, Only(log[..k], b), log[k].event, Only(later, b), now);
  }

  lemma OfferedOutsideEjections(settings: Settings, m: Breakers, log: seq<PoolEvent>, cut: nat, b: Url, now: Instant)
    requires settings.Valid() && Started(m) && cut <= |log|
    requires forall i, j :: 0 <= i < j < |log| ==> log[i].event.at <= log[j].event.at
    requires forall i :: 0 <= i < cut ==> log[i].event.at <= now
    requires var state := PoolRun(settings, m, log[..cut]); b in state && Offered(state[b], now)
    ensures !InEjection(settings, log, cut, b, now)
  {
    StaysUnknown(settings, m, log[..cut]);
    hide PoolRun, EjectsAt, Offered;
    if InEjection(settings, log, cut, b, now) {
      var k :| 0 <= k < cut && EjectsAt(settings, log, k, b) && now < log[k].event.at + settings.ejectionDuration;
      EjectedIsNotOffered(settings, m, log, cut, b, now, k);
    }
  }

  /** No retry loop ever sends a request to a backend inside an ejection, counted from the event that
      ejects it to its deadline: for any log of everything that all tasks record and query, wherever in it
      the queries of the loop fall. */
  lemma NeverSentIntoEjection(settings: Settings, m: Breakers, log: seq<PoolEvent>, p: Policy, route: RouteConfig,
                              turns: seq<Turn>, entered: Instant, cuts: seq<seq<nat>>, times: seq<seq<Instant>>, i: nat)
    requires settings.Valid() && Started(m) && Attempts(p) <= |turns| == |cuts| == |times|
    requires forall i, j :: 0 <= i < j < |log| ==> log[i].event.at <= log[j].event.at
    requires forall k :: 0 <= k < |turns| ==> AskedIn(settings, m, log, route, turns[k], cuts[k], times[k])
    requires i < |ForwardsOf(RetryLoop(p, route, turns, 1, {}, entered).log)|
    ensures var b := ForwardsOf(RetryLoop(p, route, turns, 1, {}, entered).log)[i];
            exists j :: 0 <= j < |route.backends| && route.backends[j] == b && i < |turns|
                        && AskedIn(settings, m, log, route, turns[i], cuts[i], times[i])
                        && !InEjection(settings, log, cuts[i][j], b, times[i][j])
  {
    hide RetryLoop, ForwardsOf, InEjection, PoolRun, Offered;
    RetryProperties.LoopForwards(p, route, turns, 1, {}, entered);
    var b := ForwardsOf(RetryLoop(p, route, turns, 1, {}, entered).log)[i];
    assert AskedIn(settings, m, log, route, turns[i], cuts[i], times[i]);
    var j :| OfferedTo(settings, m, log, route, cuts[i], times[i], b, j);
    OfferedOutsideEjections(settings, m, log, cuts[i][j], b, times[i][j]);
  }

  // ---------------------------------------------------------------------------------------------
  // What the health manager is told
  // ---------------------------------------------------------------------------------------------

  /** An event at the health manager, and whether this request caused it. */
  datatype Deed = Deed(own: bool, event: PoolEvent)

  function Mark(own: bool, events: seq<PoolEvent>): seq<Deed> {
    seq(|events|, i requires 0 <= i < |events| => Deed(own, events[i]))
  }

  function EventsOf(deeds: seq<Deed>): seq<PoolEvent> {
    seq(|deeds|, i requires 0 <= i < |deeds| => deeds[i].event)
  }

  /** The outcomes that this request has recorded. */
  function OwnOutcomes(deeds: seq<Deed>): seq<(Url, bool)> {
    if deeds == [] then []
    else
      var last := deeds[|deeds| - 1];
      OwnOutcomes(deeds[..|deeds| - 1])
      + if last.own && last.event.event.kind != Query then [(last.event.backend, last.event.event.kind == Success)] else []
  }

  function AttemptDeeds(p: Policy, route: RouteConfig, w: World, it: Iteration): seq<Deed>
    requires ReadingFits(route, w)
  {
    var asked := Mark(false, w.others) + Mark(true, Queries(route.backends, w.clock));
    match it
    case Stopped(run) => if run.ending == BudgetExhausted then [] else asked
    case Returned(backend, _, _, _) => asked + Mark(false, w.during) + [Deed(true, Told(p, route, w, backend))]
    case Again(backend, _, _, _) => asked + Mark(false, w.during) + [Deed(true, Told(p, route, w, backend))]
  }

  /** All events at the health manager from attempt `attempt` on, those of other tasks among them. */
  function Deeds(settings: Settings, sh: Shared, p: Policy, route: RouteConfig, worlds: seq<World>,
                 attempt: nat, attempted: set<Url>, elapsed: Instant): seq<Deed>
    requires 1 <= attempt <= Attempts(p) <= |worlds| && ReadingsFit(route, worlds)
    decreases Attempts(p) - attempt
  {
    var it := IterateAt(settings, sh, p, route, worlds, attempt, attempted, elapsed);
    AttemptDeeds(p, route, worlds[attempt - 1], it) + match it
    case Again(backend, _, _, next) =>
      Deeds(settings, Next(settings, sh, p, route, worlds[attempt - 1], attempted, it), p, route, worlds,
            attempt + 1, attempted + {backend}, next)
    case _ => []
  }

  lemma {:induction false} OwnSplits(a: seq<Deed>, b: seq<Deed>)
    ensures OwnOutcomes(a + b) == OwnOutcomes(a) + OwnOutcomes(b)
    ensures EventsOf(a + b) == EventsOf(a) + EventsOf(b)
  {
    if b == [] {
      assert a + b == a;
    } else {
      OwnSplits(a, b[..|b| - 1]);
      assert (a + b)[..|a + b| - 1] == a + b[..|b| - 1];
    }
  }

  lemma {:induction false} MarkedEvents(own: bool, events: seq<PoolEvent>)
    requires own ==> forall i :: 0 <= i < |events| ==> events[i].event.kind == Query
    ensures OwnOutcomes(Mark(own, events)) == [] && EventsOf(Mark(own, events)) == events
  {
    if events != [] {
      var front := events[..|events| - 1];
      MarkedEvents(own, front);
      assert Mark(own, events)[..|events| - 1] == Mark(own, front);
    }
  }

  lemma AttemptOwns(p: Policy, route: RouteConfig, w: World, it: Iteration)
    requires ReadingFits(route, w)
    ensures var deeds := AttemptDeeds(p, route, w, it);
            match it
            case Stopped(run) =>
              && OwnOutcomes(deeds) == []
              && EventsOf(deeds) == if run.ending == BudgetExhausted then [] else w.others + Queries(route.backends, w.clock)
            case Returned(b, _, _, _) =>
              && OwnOutcomes(deeds) == [(b, Succeeded(p, route, w.reply))]
              && EventsOf(deeds) == w.others + Queries(route.backends, w.clock) + w.during + [Told(p, route, w, b)]
            case Again(b, _, _, _) =>
              && OwnOutcomes(deeds) == [(b, Succeeded(p, route, w.reply))]
              && EventsOf(deeds) == w.others + Queries(route.backends, w.clock) + w.during + [Told(p, route, w, b)]
  {
    var others, asked, during := Mark(false, w.others), Mark(true, Queries(route.backends, w.clock)), Mark(false, w.during);
    MarkedEvents(false, w.others);
    MarkedEvents(true, Queries(route.backends, w.clock));
    MarkedEvents(false, w.during);
    OwnSplits(others, asked);
    OwnSplits(others + asked, during);
    if !it.Stopped? {
      OwnSplits(others + asked + during, [Deed(true, Told(p, route, w, it.backend))]);
      assert [Deed(true, Told(p, route, w, it.backend))][..0] == [];
    }
  }

  lemma AttemptLeaves(settings: Settings, sh: Shared, p: Policy, route: RouteConfig, w: World, attempted: set<Url>, it: Iteration)
    requires ReadingFits(route, w)
    ensures Next(settings, sh, p, route, w, attempted, it).pool == PoolRun(settings, sh.pool, EventsOf(AttemptDeeds(p, route, w, it)))
  {
    AttemptOwns(p, route, w, it);
    hide AttemptDeeds, EventsOf, OwnOutcomes, Told, Queries, TurnAt, Serve, ServeAll;
    var queries := Queries(route.backends, w.clock);
    PoolRunSplits(settings, sh.pool, w.others, queries);
    if !it.Stopped? {
      PoolRunSplits(settings, sh.pool, w.others + queries, w.during);
      var all := w.others + queries + w.during;
      assert (all + [Told(p, route, w, it.backend)])[..|all|] == all;
    }
  }

  /** The loop leaves the breakers as all the events do, and of these its own outcomes are exactly those of
      its log: one for each forward, in order, about the backend that it used, and none else. */
  lemma {:induction false} OutcomesAreTold(settings: Settings, sh: Shared, p: Policy, route: RouteConfig, worlds: seq<World>,
                                           turns: seq<Turn>, attempt: nat, attempted: set<Url>, elapsed: Instant)
    requires 1 <= attempt <= Attempts(p) <= |worlds| && ReadingsFit(route, worlds)
    requires |turns| == Attempts(p)
    requires turns[attempt - 1..] == Turns(settings, sh, p, route, worlds, attempt, attempted, elapsed)
    ensures var deeds := Deeds(settings, sh, p, route, worlds, attempt, attempted, elapsed);
            && Final(settings, sh, p, route, worlds, attempt, attempted, elapsed).pool == PoolRun(settings, sh.pool, EventsOf(deeds))
            && OwnOutcomes(deeds) == OutcomesOf(RetryLoop(p, route, turns, attempt, attempted, elapsed).log)
    decreases Attempts(p) - attempt
  {
    hide Iterate, RetryLoop, ForwardsOf, OutcomesOf, TallyOf, Next, Turns, TurnAt, PoolRun, EventsOf, OwnOutcomes, AttemptDeeds;
    var w := worlds[attempt - 1];
    TurnsUnroll(settings, sh, p, route, worlds, turns, attempt, attempted, elapsed);
    RetryProperties.LoopCalls(p, route, turns, attempt, attempted, elapsed);
    var it := IterateAt(settings, sh, p, route, worlds, attempt, attempted, elapsed);
    AttemptOwns(p, route, w, it);
    AttemptLeaves(settings, sh, p, route, w, attempted, it);
    TurnReplies(settings, sh, route, w);
    var deeds := AttemptDeeds(p, route, w, it);
    assert deeds + [] == deeds;
    if it.Again? {
      var next := Next(settings, sh, p, route, w, attempted, it);
      OutcomesAreTold(settings, next, p, route, worlds, turns, attempt + 1, attempted + {it.backend}, it.next);
      var rest := Deeds(settings, next, p, route, worlds, attempt + 1, attempted + {it.backend}, it.next);
      OwnSplits(deeds, rest);
      PoolRunSplits(settings, sh.pool, EventsOf(deeds), EventsOf(rest));
    }
  }

  lemma TurnReplies(settings: Settings, sh: Shared, route: RouteConfig, w: World)
    requires ReadingFits(route, w)
    ensures var turn := TurnAt(settings, sh, route, w);
            turn.headDelay == w.headDelay && turn.reply == w.reply && turn.forwardTime == w.forwardTime
  {
  }

  // ---------------------------------------------------------------------------------------------
  // The other tasks
  // ---------------------------------------------------------------------------------------------

  lemma RunGrows(settings: Settings, m: Breakers, log: seq<PoolEvent>, i: nat)
    requires i < |log|
    ensures PoolRun(settings, m, log[..i + 1]) == PoolStep(settings, PoolRun(settings, m, log[..i]), log[i])
    ensures log[i].event.kind == Success ==>
              PoolRun(settings, m, log[..i + 1])
              == PoolStep(settings, PoolRun(settings, m, log[..i]), PoolEvent(log[i].backend, Event(Success, 0)))
  {
    assert log[..i + 1][..i] == log[..i];
  }

  /** Other tasks query and record. */
  method OthersRecord(manager: HealthManager, log: seq<PoolEvent>)
    requires manager.Valid()
    modifies manager.Objects(), manager.telemetry
    ensures manager.Valid()
    ensures manager.View() == PoolRun(manager.settings, old(manager.View()), log)
    ensures manager.telemetry != null ==> manager.telemetry.Counted() == old(manager.telemetry.Counted())
  {
    ghost var before := manager.View();
    for i := 0 to |log|
      invariant manager.Valid()
      invariant manager.View() == PoolRun(manager.settings, before, log[..i])
      invariant manager.telemetry != null ==> manager.telemetry.Counted() == old(manager.telemetry.Counted())
    {
      hide PoolRun, PoolStep, HealthManager.PoolValid, HealthManager.View, HealthManager.Reports;
      RunGrows(manager.settings, before, log, i);
      match log[i].event.kind {
        case Success => manager.RecordSuccess(log[i].backend);
        case Failure => manager.RecordFailure(log[i].backend, log[i].event.at);
        case Query => var _ := manager.IsBackendEjected(log[i].backend, log[i].event.at);
      }
    }
    assert log[..|log|] == log;
  }

  /** Other tasks draw tickets. */
  method OthersDraw(balancer: LoadBalancer, draws: seq<Balancing.Request>)
    requires balancer.Valid()
    modifies balancer.Objects()
    ensures balancer.View() == ServeAll(old(balancer.View()), draws)
  {
    for i := 0 to |draws|
      invariant balancer.View() == ServeAll(old(balancer.View()), draws[..i])
    {
      hide LoadBalancer.View, Position, Serve;
      var _ := balancer.SelectBackend(draws[i].prefix, draws[i].backends);
      assert draws[..i + 1][..i] == draws[..i];
    }
    assert draws[..|draws|] == draws;
  }

  // ---------------------------------------------------------------------------------------------
  // One exchange
  // ---------------------------------------------------------------------------------------------

  /** The balancer knows the route, as it does after its construction. */
  predicate Balances(balancer: LoadBalancer, route: RouteConfig) {
    route.pathPrefix in balancer.routes && balancer.routes[route.pathPrefix].strategy == route.balancing
  }

  /** `select_backend`: asks the health manager, leaves out the backends that were attempted, and asks the
      balancer. */
  method SelectBackend(route: RouteConfig, attempted: set<Url>, clock: seq<Instant>, manager: HealthManager, balancer: LoadBalancer)
      returns (backend: Option<Url>)
    requires manager.PoolValid() && balancer.Valid() && Balances(balancer, route)
    requires |clock| == |route.backends| && Ordered(clock)
    modifies manager.Objects(), balancer.Objects()
    ensures manager.PoolValid()
    ensures manager.View() == PoolRun(manager.settings, old(manager.View()), Queries(route.backends, clock))
    ensures var eligible := Eligible(AvailableOf(old(manager.View()), route.backends, clock), attempted);
            && balancer.View() == Serve(old(balancer.View()), Balancing.Request(route.pathPrefix, eligible))
            && backend == if eligible == [] then None else Some(Choice(route, Ticket(old(balancer.View()), route), eligible))
  {
    hide PoolRun, AvailableOf, HealthManager.PoolValid, HealthManager.View, Eligible;
    var healthy := manager.HealthyBackends(route.backends, clock);
    var eligible := Eligible(healthy, attempted);
    backend := balancer.SelectBackend(route.pathPrefix, eligible);
  }

  /** An answer that no backend gave: the error and the response are counted. */
  method Reject(status: nat, kind: string, telemetry: Telemetry)
    requires telemetry.Valid()
    modifies telemetry
    ensures telemetry.Valid() && telemetry.history == old(telemetry.history)
    ensures telemetry.Counted() == Counted(old(telemetry.Counted()), [Metric(ProxyError(kind)), Complete(status)])
    ensures telemetry.proxyErrors == Increment(old(telemetry.proxyErrors), kind)
    ensures telemetry.responseStatuses == Increment(old(telemetry.responseStatuses), status)
  {
    hide Counted, Increment;
    ghost var c := telemetry.Counted();
    CountedNone(c);
    telemetry.RecordProxyError(kind);
    telemetry.RecordResponseStatus(status);
    ghost var log: seq<Call> := [];
    CountedOne(c, log, Metric(ProxyError(kind)));
    log := log + [Metric(ProxyError(kind))];
    CountedOne(c, log, Complete(status));
    assert log + [Complete(status)] == [Metric(ProxyError(kind)), Complete(status)];
  }

  /** The same, beside a health manager that reports to the same metrics. */
  method RejectFor(status: nat, kind: string, telemetry: Telemetry, manager: HealthManager)
    requires manager.Valid() && manager.telemetry == telemetry
    modifies telemetry
    ensures manager.Valid() && manager.View() == old(manager.View())
    ensures telemetry.Counted() == Counted(old(telemetry.Counted()), [Metric(ProxyError(kind)), Complete(status)])
  {
    Reject(status, kind, telemetry);
  }

  /** The health manager hears about the outcome of an exchange. */
  method RecordOutcome(p: Policy, route: RouteConfig, backend: Url, w: World, manager: HealthManager)
    requires manager.Valid()
    modifies manager.Objects(), manager.telemetry
    ensures manager.Valid()
    ensures manager.View() == PoolStep(manager.settings, old(manager.View()), Told(p, route, w, backend))
    ensures manager.telemetry != null ==> manager.telemetry.Counted() == old(manager.telemetry.Counted())
  {
    hide PoolStep, HealthManager.PoolValid, HealthManager.View, HealthManager.Reports, IsPassiveFailure;
    if w.reply.Response? && !IsPassiveFailure(p, route, w.reply.status) {
      manager.RecordSuccess(backend);
    } else {
      manager.RecordFailure(backend, w.recorded);
    }
  }

  /** `forward_request`, with the reply that it gets: the latency, the outcome for the health manager, the
      error if there is one, and the response, in this order. */
  method ForwardRequest(p: Policy, route: RouteConfig, backend: Url, ghost at: Instant, w: World, elapsed: Instant,
                        telemetry: Telemetry, manager: HealthManager)
      returns (status: nat)
    requires manager.Valid() && manager.telemetry == telemetry
    modifies telemetry, manager.Objects()
    ensures manager.Valid()
    ensures telemetry.Counted() == Counted(old(telemetry.Counted()), Exchange(p, route, backend, at, w.reply, elapsed))
    ensures manager.View() == PoolStep(manager.settings, PoolRun(manager.settings, old(manager.View()), w.during), Told(p, route, w, backend))
    ensures Told(p, route, w, backend).event
         == match w.reply
            case Failed(_) => Event(Failure, w.recorded)
            case Response(received) =>
              if if route.passiveFailureStatuses == [] then p.passiveFailureMin <= received <= p.passiveFailureMax
                 else received in route.passiveFailureStatuses
              then Event(Failure, w.recorded) else Event(Success, 0)
    ensures status
         == match w.reply
            case Response(received) => received
            case Failed(ConnectTimeout) => 504
            case Failed(_) => 502
    ensures telemetry.upstreamLatencyCount == old(telemetry.upstreamLatencyCount) + 1
    ensures telemetry.upstreamLatencyTotalMicros == old(telemetry.upstreamLatencyTotalMicros) + elapsed / 1_000
    ensures telemetry.responseStatuses == Increment(old(telemetry.responseStatuses), status)
    ensures telemetry.proxyErrors
         == match w.reply
            case Response(_) => old(telemetry.proxyErrors)
            case Failed(error) => Increment(old(telemetry.proxyErrors), RetryProperties.ErrorKind(error))
  {
    SucceededMeans(p, route, w, backend);
    hide Counted, PoolRun, PoolStep, HealthManager.PoolValid, HealthManager.View, Told, Succeeded, Increment;
    ghost var c := telemetry.Counted();
    OthersRecord(manager, w.during);
    telemetry.RecordUpstreamLatency(elapsed / 1_000);
    RecordOutcome(p, route, backend, w, manager);
    match w.reply {
      case Response(received) =>
        status := received;
      case Failed(error) =>
        telemetry.RecordProxyError(error.Kind());
        status := if error == ConnectTimeout then 504 else 502;
    }
    telemetry.RecordResponseStatus(status);
    ExchangeCounted(c, p, route, backend, at, w.reply, elapsed);
  }

  lemma SucceededMeans(p: Policy, route: RouteConfig, w: World, backend: Url)
    ensures Told(p, route, w, backend).event
         == match w.reply
            case Failed(_) => Event(Failure, w.recorded)
            case Response(received) =>
              if if route.passiveFailureStatuses == [] then p.passiveFailureMin <= received <= p.passiveFailureMax
                 else received in route.passiveFailureStatuses
              then Event(Failure, w.recorded) else Event(Success, 0)
  {
  }

  lemma ExchangeCounted(c: Counters, p: Policy, route: RouteConfig, backend: Url, at: Instant, reply: Reply, elapsed: Instant)
    ensures var latency := Apply(c, UpstreamLatency(elapsed / 1_000));
            Counted(c, Exchange(p, route, backend, at, reply, elapsed))
            == Apply(if reply.Failed? then Apply(latency, ProxyError(reply.error.Kind())) else latency, ResponseStatus(reply.Status()))
  {
    hide Counted, Apply, Succeeded;
    var log: seq<Call> := [];
    CountedNone(c);
    CountedOne(c, log, Forward(backend, at));
    log := log + [Forward(backend, at)];
    CountedOne(c, log, Metric(UpstreamLatency(elapsed / 1_000)));
    log := log + [Metric(UpstreamLatency(elapsed / 1_000))];
    CountedOne(c, log, Outcome(backend, Succeeded(p, route, reply)));
    log := log + [Outcome(backend, Succeeded(p, route, reply))];
    if reply.Failed? {
      CountedOne(c, log, Metric(ProxyError(reply.error.Kind())));
      log := log + [Metric(ProxyError(reply.error.Kind()))];
    }
    CountedOne(c, log, Complete(reply.Status()));
    assert log + [Complete(reply.Status())] == Exchange(p, route, backend, at, reply, elapsed);
  }

  /** Other tasks act, and then an attempt asks for a backend. */
  method Ask(route: RouteConfig, attempted: set<Url>, w: World, manager: HealthManager, balancer: LoadBalancer)
      returns (backend: Option<Url>)
    requires manager.Valid() && balancer.Valid() && Balances(balancer, route) && ReadingFits(route, w)
    modifies manager.Objects(), manager.telemetry, balancer.Objects()
    ensures manager.Valid()
    ensures manager.telemetry != null ==> manager.telemetry.Counted() == old(manager.telemetry.Counted())
    ensures var sh := Shared(old(manager.View()), old(balancer.View()));
            var turn := TurnAt(manager.settings, sh, route, w);
            var eligible := Eligible(turn.healthy, attempted);
            && Shared(manager.View(), balancer.View()) == Chosen(manager.settings, sh, route, w, attempted)
            && backend == if eligible == [] then None else Some(Choice(route, turn.ticket, eligible))
  {
    hide PoolRun, AvailableOf, HealthManager.PoolValid, HealthManager.View, LoadBalancer.View, Eligible, Choice, Serve, ServeAll;
    OthersRecord(manager, w.others);
    OthersDraw(balancer, w.draws);
    backend := SelectBackend(route, attempted, w.clock, manager, balancer);
  }

  // ---------------------------------------------------------------------------------------------
  // The loop as it is written
  // ---------------------------------------------------------------------------------------------

  /** What follows a forward: nothing more, a log line, or another attempt after a pause. */
  function Onward(p: Policy, route: RouteConfig, w: World, attempt: nat, checked: Instant): (seq<Call>, Option<(Instant, Instant)>)
    requires attempt >= 1
  {
    var pause := Millis(Backoff(p, attempt));
    var ready := checked + w.backoffDelay;
    if !ShouldRetryStatus(p, route, w.reply.Status()) || attempt >= p.maxAttempts || checked >= p.totalTimeout
    then ([], None)
    else if p.backoffMs > 0 && pause >= Max(p.totalTimeout - ready, 0) then ([RetryLogged(attempt + 1)], None)
    else ([RetryLogged(attempt + 1)] + [RetryStarted(attempt + 1)],
          Some(if p.backoffMs > 0 then (pause, ready + pause + w.oversleep) else (0, checked)))
  }

  lemma BudgetIsOut(settings: Settings, sh: Shared, p: Policy, route: RouteConfig, w: World, attempt: nat, attempted: set<Url>, entered: Instant)
    requires attempt >= 1 && ReadingFits(route, w) && entered + w.headDelay >= p.totalTimeout
    ensures var it := Iterate(p, route, TurnAt(settings, sh, route, w), attempt, attempted, entered);
            && it.Stopped? && it.run.status == 504
            && IterationLog(it, attempt) == [Metric(ProxyError("retry_budget_exhausted")), Complete(504)]
            && Next(settings, sh, p, route, w, attempted, it) == sh
  {
  }

  lemma NobodyIsLeft(settings: Settings, sh: Shared, p: Policy, route: RouteConfig, w: World, attempt: nat, attempted: set<Url>, entered: Instant)
    requires attempt >= 1 && ReadingFits(route, w) && entered + w.headDelay < p.totalTimeout
    requires Eligible(TurnAt(settings, sh, route, w).healthy, attempted) == []
    ensures var it := Iterate(p, route, TurnAt(settings, sh, route, w), attempt, attempted, entered);
            && it.Stopped? && it.run.status == 503
            && IterationLog(it, attempt)
            == [Metric(ProxyError(if attempt == 1 then "no_healthy_backends" else "retry_exhausted")), Complete(503)]
            && Next(settings, sh, p, route, w, attempted, it) == Chosen(settings, sh, route, w, attempted)
  {
  }

  lemma BackendIsTried(settings: Settings, sh: Shared, p: Policy, route: RouteConfig, w: World, attempt: nat, attempted: set<Url>, entered: Instant)
    requires attempt >= 1 && ReadingFits(route, w) && entered + w.headDelay < p.totalTimeout
    requires Eligible(TurnAt(settings, sh, route, w).healthy, attempted) != []
    ensures var turn := TurnAt(settings, sh, route, w);
            var backend := Choice(route, turn.ticket, Eligible(turn.healthy, attempted));
            var head := entered + w.headDelay;
            var it := Iterate(p, route, turn, attempt, attempted, entered);
            var (tail, again) := Onward(p, route, w, attempt, head + w.forwardTime + w.checkDelay);
            && IterationLog(it, attempt) == Exchange(p, route, backend, head, w.reply, head + w.forwardTime) + tail
            && Next(settings, sh, p, route, w, attempted, it)
            == Heard(settings, Chosen(settings, sh, route, w, attempted), p, route, w, backend)
            && backend !in attempted
            && match again
               case None => it.Returned? && it.run.status == w.reply.Status()
               case Some(later) => it.Again? && it.backend == backend && (it.slept, it.next) == later
  {
    hide Exchange, Choice, Backoff, Succeeded, ShouldRetryStatus, Heard, Chosen, Eligible;
  }

  lemma TailIsSilent(c: Counters, sent: seq<Call>, p: Policy, route: RouteConfig, w: World, attempt: nat, checked: Instant)
    requires attempt >= 1
    ensures Counted(c, sent + Onward(p, route, w, attempt, checked).0) == Counted(c, sent)
  {
    hide Counted, Backoff, ShouldRetryStatus;
    assert sent + [] == sent;
    SilentCalls(c, sent, RetryLogged(attempt + 1));
    SilentCalls(c, sent + [RetryLogged(attempt + 1)], RetryStarted(attempt + 1));
    assert sent + [RetryLogged(attempt + 1)] + [RetryStarted(attempt + 1)]
        == sent + ([RetryLogged(attempt + 1)] + [RetryStarted(attempt + 1)]);
  }

  /** The end of the loop's body: whether to go on, and after which pause. */
  method Decide(p: Policy, route: RouteConfig, w: World, status: nat, attempt: nat, checked: Instant)
      returns (again: Option<(Instant, Instant)>)
    requires attempt >= 1 && status == w.reply.Status()
    ensures again == Onward(p, route, w, attempt, checked).1
  {
    if !ShouldRetryStatus(p, route, status) || attempt >= p.maxAttempts || checked >= p.totalTimeout {
      return None;
    }
    if p.backoffMs > 0 {
      var backoff := Millis(Backoff(p, attempt));
      var elapsed := checked + w.backoffDelay;
      var remaining := if p.totalTimeout > elapsed then p.totalTimeout - elapsed else 0;
      if backoff >= remaining {
        return None;
      }
      return Some((backoff, elapsed + backoff + w.oversleep));
    }
    again := Some((0, checked));
  }

  /** The body of the loop: it answers the request, or asks for another attempt and says which backend
      it has used, how long it has slept and what time it is then. */
  method Attempt(p: Policy, route: RouteConfig, w: World, attempt: nat, attempted: set<Url>, entered: Instant,
                 telemetry: Telemetry, manager: HealthManager, balancer: LoadBalancer)
      returns (status: nat, again: Option<(Url, Instant, Instant)>)
    requires attempt >= 1 && manager.Valid() && manager.telemetry == telemetry
    requires balancer.Valid() && Balances(balancer, route) && ReadingFits(route, w)
    modifies telemetry, manager.Objects(), balancer.Objects()
    ensures manager.Valid()
    ensures var sh := Shared(old(manager.View()), old(balancer.View()));
            var it := Iterate(p, route, TurnAt(manager.settings, sh, route, w), attempt, attempted, entered);
            && telemetry.Counted() == Counted(old(telemetry.Counted()), IterationLog(it, attempt))
            && Shared(manager.View(), balancer.View()) == Next(manager.settings, sh, p, route, w, attempted, it)
            && match it
               case Stopped(r) => again == None && status == r.status
               case Returned(_, _, _, r) => again == None && status == r.status
               case Again(backend, _, pause, next) => again == Some((backend, pause, next)) && backend !in attempted
  {
    hide Counted, Exchange, Choice, PoolRun, PoolStep, HealthManager.Valid, HealthManager.View,
         LoadBalancer.View, Iterate, IterationLog, Next, Onward, Eligible, TurnAt, Chosen, Told;
    ghost var c, sh := telemetry.Counted(), Shared(manager.View(), balancer.View());
    again := None;
    var elapsed: Instant := entered + w.headDelay;
    if elapsed >= p.totalTimeout {
      BudgetIsOut(manager.settings, sh, p, route, w, attempt, attempted, entered);
      status := 504;
      RejectFor(504, "retry_budget_exhausted", telemetry, manager);
      return;
    }

    var selected := Ask(route, attempted, w, manager, balancer);
    if selected.None? {
      NobodyIsLeft(manager.settings, sh, p, route, w, attempt, attempted, entered);
      status := 503;
      RejectFor(503, if attempt == 1 then "no_healthy_backends" else "retry_exhausted", telemetry, manager);
      return;
    }
    var backend := selected.value;
    BackendIsTried(manager.settings, sh, p, route, w, attempt, attempted, entered);
    status := ForwardRequest(p, route, backend, elapsed, w, elapsed + w.forwardTime, telemetry, manager);

    var checked := elapsed + w.forwardTime + w.checkDelay;
    TailIsSilent(c, Exchange(p, route, backend, elapsed, w.reply, elapsed + w.forwardTime), p, route, w, attempt, checked);
    var later := Decide(p, route, w, status, attempt, checked);
    if later.Some? {
      again := Some((backend, later.value.0, later.value.1));
    }
  }

  /** From the state `sh` on, the loop still has to meet the turns that it was to meet, and to end in `end`. */
  ghost predicate OnTrack(settings: Settings, end: Shared, sh: Shared, p: Policy, route: RouteConfig, worlds: seq<World>,
                          turns: seq<Turn>, attempt: nat, attempted: set<Url>, elapsed: Instant)
    requires 1 <= attempt <= Attempts(p) <= |worlds| && ReadingsFit(route, worlds)
  {
    && |turns| == Attempts(p)
    && turns[attempt - 1..] == Turns(settings, sh, p, route, worlds, attempt, attempted, elapsed)
    && end == Final(settings, sh, p, route, worlds, attempt, attempted, elapsed)
  }

  lemma StartsOnTrack(settings: Settings, start: Shared, p: Policy, route: RouteConfig, worlds: seq<World>, entered: Instant)
    requires Attempts(p) <= |worlds| && ReadingsFit(route, worlds)
    ensures var turns := Turns(settings, start, p, route, worlds, 1, {}, entered);
            && OnTrack(settings, Final(settings, start, p, route, worlds, 1, {}, entered), start, p, route, worlds, turns, 1, {}, entered)
            && Ahead(RetryLoop(p, route, turns, 1, {}, entered), [], 0, p, route, turns, 1, {}, entered)
  {
    hide Turns, Final, RetryLoop;
    var turns := Turns(settings, start, p, route, worlds, 1, {}, entered);
    assert turns[0..] == turns;
    var run := RetryLoop(p, route, turns, 1, {}, entered);
    assert [] + run.log == run.log;
  }

  lemma StaysOnTrack(settings: Settings, end: Shared, sh: Shared, p: Policy, route: RouteConfig, worlds: seq<World>,
                     turns: seq<Turn>, attempt: nat, attempted: set<Url>, elapsed: Instant)
    requires 1 <= attempt <= Attempts(p) <= |worlds| && ReadingsFit(route, worlds)
    requires OnTrack(settings, end, sh, p, route, worlds, turns, attempt, attempted, elapsed)
    ensures |turns| == Attempts(p)
    ensures turns[attempt - 1] == TurnAt(settings, sh, route, worlds[attempt - 1])
    ensures var it := Iterate(p, route, turns[attempt - 1], attempt, attempted, elapsed);
            var next := Next(settings, sh, p, route, worlds[attempt - 1], attempted, it);
            if it.Again?
            then attempt < p.maxAttempts && OnTrack(settings, end, next, p, route, worlds, turns, attempt + 1, attempted + {it.backend}, it.next)
            else end == next
  {
    hide Turns, Final, Next, TurnAt, Iterate;
    TurnsUnroll(settings, sh, p, route, worlds, turns, attempt, attempted, elapsed);
  }

  /** `forward_with_retries`: it terminates, it is the loop of the specification on the turns that the
      shared objects give it, and it leaves them as the specification says. */
  method ForwardWithRetries(p: Policy, route: RouteConfig, worlds: seq<World>, entered: Instant,
                            telemetry: Telemetry, manager: HealthManager, balancer: LoadBalancer)
      returns (status: nat, ghost run: Retry.Run)
    requires Attempts(p) <= |worlds| && ReadingsFit(route, worlds)
    requires manager.Valid() && manager.telemetry == telemetry && balancer.Valid() && Balances(balancer, route)
    modifies telemetry, manager.Objects(), balancer.Objects()
    ensures manager.Valid()
    ensures var sh := Shared(old(manager.View()), old(balancer.View()));
            && run == RetryLoop(p, route, Turns(manager.settings, sh, p, route, worlds, 1, {}, entered), 1, {}, entered)
            && Shared(manager.View(), balancer.View()) == Final(manager.settings, sh, p, route, worlds, 1, {}, entered)
    ensures status == run.status
    ensures telemetry.Counted() == Counted(old(telemetry.Counted()), run.log)
  {
    hide Ahead, RetryLoop, Counted, OutcomesOf, Iterate, IterationLog, OnTrack, Turns, Final, Next, TurnAt,
         HealthManager.Valid, HealthManager.View, LoadBalancer.View;
    var attemptedBackends: set<Url> := {};
    var attempt: nat := 1;
    var elapsed: Instant := entered;
    ghost var c := telemetry.Counted();
    ghost var log: seq<Call> := [];
    ghost var slept: Instant := 0;
    ghost var start := Shared(manager.View(), balancer.View());
    ghost var end := Final(manager.settings, start, p, route, worlds, 1, {}, entered);
    ghost var turns := Turns(manager.settings, start, p, route, worlds, 1, {}, entered);
    run := RetryLoop(p, route, turns, 1, {}, entered);
    NothingYet(c, run);
    StartsOnTrack(manager.settings, start, p, route, worlds, entered);

    while true
      invariant 1 <= attempt <= Attempts(p)
      invariant attempt == |attemptedBackends| + 1
      invariant manager.Valid()
      invariant Ahead(run, log, slept, p, route, turns, attempt, attemptedBackends, elapsed)
      invariant OnTrack(manager.settings, end, Shared(manager.View(), balancer.View()), p, route, worlds, turns,
                        attempt, attemptedBackends, elapsed)
      invariant telemetry.Counted() == Counted(c, log)
      decreases Attempts(p) - attempt
    {
      ghost var sh := Shared(manager.View(), balancer.View());
      Unroll(run, log, slept, p, route, turns, attempt, attemptedBackends, elapsed);
      StaysOnTrack(manager.settings, end, sh, p, route, worlds, turns, attempt, attemptedBackends, elapsed);
      ghost var it := Iterate(p, route, turns[attempt - 1], attempt, attemptedBackends, elapsed);
      Finish(c, log, IterationLog(it, attempt));
      var again;
      status, again := Attempt(p, route, worlds[attempt - 1], attempt, attemptedBackends, elapsed, telemetry, manager, balancer);
      log := log + IterationLog(it, attempt);
      if again.None? {
        return;
      }
      attemptedBackends := attemptedBackends + {again.value.0};
      slept, elapsed := slept + again.value.1, again.value.2;
      attempt := attempt + 1;
    }
  }
}
