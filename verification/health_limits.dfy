/** How far the invariant of the circuit breaker reaches: it survives calls that do not overlap, and of
    its five clauses only one survives two threads. */
module HealthLimits {
  import opened Common
  import opened CircuitBreaker
  import opened HealthThreads

  // ---------------------------------------------------------------------------------------------
  // Calls that do not overlap
  // ---------------------------------------------------------------------------------------------

  /** Nobody calls a method while a thread is inside one. */
  ghost predicate Serial(cfg: Settings, s: System, actions: seq<Action>)
    decreases |actions|
  {
    actions == [] ||
    (&& Enabled(s, actions[0])
     && (actions[0].Call? ==> Quiet(s))
     && Serial(cfg, Do(cfg, s, actions[0]), actions[1..]))
  }

  /** What a thread that is alone inside a method may rely on at each point. */
  ghost predicate PcOk(cfg: Settings, b: Breaker, pc: Pc) {
    var inv := CircuitBreaker.Inv(cfg, b);
    var reachable := b.healthy || b.ejectedUntil.Some?;
    match pc
    case SuccessClearFailures => inv
    case SuccessLoadProbing => inv && b.failures == 0
    case SuccessStopProbing => inv && b.failures == 0 && b.probing
    case SuccessProbeHealthy => b.failures == 0 && !b.probing && b.ejectedUntil.None?
    case SuccessProbeClear => b.healthy && b.failures == 0 && !b.probing && b.ejectedUntil.None?
    case SuccessCount => inv && b.failures == 0 && !b.probing
    case SuccessTest(successes) => b.failures == 0 && !b.probing && reachable && successes == b.successes
    case SuccessHealthy => b.failures == 0 && !b.probing
    case SuccessClear => b.healthy && b.failures == 0 && !b.probing
    case FailureClearSuccesses => inv
    case FailureLoadProbing => inv && b.successes == 0
    case FailureStopProbing => inv && b.successes == 0 && b.probing
    case FailureProbeEject => b.successes == 0 && !b.probing && (b.healthy ==> b.failures < cfg.failureThreshold)
    case FailureCount => inv && b.successes == 0 && !b.probing
    case FailureTest(failures, _) => b.successes == 0 && !b.probing && reachable && failures == b.failures
    case FailureUnhealthy(_) => b.successes == 0 && !b.probing
    case FailureClear(_) => b.successes == 0 && !b.probing && !b.healthy
    case FailureEject(_) => b.successes == 0 && b.failures == 0 && !b.probing && !b.healthy
    case QueryLock => inv
    case QueryProbe => b.ejectedUntil.None? && CircuitBreaker.Inv(cfg, b.(probing := true))
    case QueryLoadHealthy => inv
    case QueryLoadProbing => inv
    case _ => true
  }

  lemma MoveKeepsPcOk(cfg: Settings, sh: Shared, pc: Pc, now: Instant)
    requires cfg.Valid() && PcOk(cfg, sh.b, pc) && CanMove(sh, pc)
    ensures var (next, then_) := Move(cfg, sh, pc, now);
            if Outside(then_) then CircuitBreaker.Inv(cfg, next.b) else PcOk(cfg, next.b, then_)
  {
  }

  /** At most one thread is inside a method, and the invariant holds when none is. */
  ghost predicate OneInside(cfg: Settings, s: System) {
    && (forall t, u :: t in s.threads && u in s.threads && !Outside(s.threads[t]) && !Outside(s.threads[u]) ==> t == u)
    && (forall t :: t in s.threads ==> PcOk(cfg, s.shared.b, s.threads[t]))
    && (Quiet(s) ==> CircuitBreaker.Inv(cfg, s.shared.b))
  }

  lemma StepKeepsOneInside(cfg: Settings, s: System, a: Action)
    requires cfg.Valid() && OneInside(cfg, s) && Enabled(s, a) && (a.Call? ==> Quiet(s))
    ensures OneInside(cfg, Do(cfg, s, a))
  {
    var s' := Do(cfg, s, a);
    match a
    case Tick(_) =>
      assert Quiet(s') ==> Quiet(s);
    case Call(tid, _) =>
      assert !Outside(s'.threads[tid]);
    case Advance(tid) =>
      MoveKeepsPcOk(cfg, s.shared, s.threads[tid], s.clock);
      hide PcOk, Move, CircuitBreaker.Inv;
      assert !Outside(s.threads[tid]);
      OutsideIsOk(cfg, s, s', tid);
  }

  /** The threads outside rely on nothing. */
  lemma OutsideIsOk(cfg: Settings, s: System, s': System, tid: Tid)
    requires forall t, u :: t in s.threads && u in s.threads && !Outside(s.threads[t]) && !Outside(s.threads[u]) ==> t == u
    requires tid in s.threads && !Outside(s.threads[tid])
    requires tid in s'.threads && s'.threads == s.threads[tid := s'.threads[tid]]
    ensures forall t :: t in s'.threads && t != tid ==> Outside(s'.threads[t]) && PcOk(cfg, s'.shared.b, s'.threads[t])
  {
  }

  lemma {:induction false} SerialKeepsOneInside(cfg: Settings, s: System, actions: seq<Action>, t: System)
    requires cfg.Valid() && OneInside(cfg, s) && Serial(cfg, s, actions) && Leads(cfg, s, actions, t)
    ensures OneInside(cfg, t)
    decreases |actions|
  {
    hide OneInside, Quiet;
    if actions != [] {
      StepKeepsOneInside(cfg, s, actions[0]);
      SerialKeepsOneInside(cfg, Do(cfg, s, actions[0]), actions[1..], t);
    }
  }

  /** As long as no call overlaps another, the atomic steps keep the invariant of the circuit breaker:
      it holds whenever no thread is inside a method, for any number of threads. */
  lemma SerialRunsKeepInv(cfg: Settings, actions: seq<Action>, s: System)
    requires cfg.Valid() && Leads(cfg, Initial, actions, s) && Serial(cfg, Initial, actions) && Quiet(s)
    ensures CircuitBreaker.Inv(cfg, s.shared.b)
  {
    hide Leads, Serial;
    assert OneInside(cfg, Initial);
    SerialKeepsOneInside(cfg, Initial, actions, s);
  }

  // ---------------------------------------------------------------------------------------------
  // Clause by clause
  // ---------------------------------------------------------------------------------------------

  /** All calls come from `n` threads. */
  predicate ThreadsBelow(actions: seq<Action>, n: nat) {
    forall a :: a in actions && !a.Tick? ==> a.tid < n
  }

  /** The clauses of the invariant. */
  datatype Clause = HealthyBelow | UnhealthyBelow | OneCounter | ProbeNotEjected | NotLost

  predicate Satisfies(cfg: Settings, b: Breaker, c: Clause) {
    match c
    case HealthyBelow => b.healthy ==> b.failures < cfg.failureThreshold
    case UnhealthyBelow => !b.healthy ==> b.successes < cfg.recoveryThreshold
    case OneCounter => b.failures == 0 || b.successes == 0
    case ProbeNotEjected => b.probing ==> b.ejectedUntil.None?
    case NotLost => !b.healthy ==> b.ejectedUntil.Some? || b.probing
  }

  lemma InvIsItsClauses(cfg: Settings, b: Breaker)
    ensures CircuitBreaker.Inv(cfg, b) <==> forall c :: Satisfies(cfg, b, c)
  {
    if forall c :: Satisfies(cfg, b, c) {
      assert Satisfies(cfg, b, HealthyBelow) && Satisfies(cfg, b, UnhealthyBelow) && Satisfies(cfg, b, OneCounter)
          && Satisfies(cfg, b, ProbeNotEjected) && Satisfies(cfg, b, NotLost);
    }
  }

  /** Whatever `n` threads do, the clause holds whenever none of them is inside a method. */
  ghost predicate KeptBy(n: nat, c: Clause) {
    forall cfg: Settings, actions: seq<Action>, s: System ::
      cfg.Valid() && ThreadsBelow(actions, n) && Leads(cfg, Initial, actions, s) && Quiet(s) ==> Satisfies(cfg, s.shared.b, c)
  }

  lemma {:induction false} OneThreadIsSerial(cfg: Settings, s: System, actions: seq<Action>, t: System)
    requires Leads(cfg, s, actions, t) && ThreadsBelow(actions, 1) && s.threads.Keys <= {0}
    ensures Serial(cfg, s, actions)
    decreases |actions|
  {
    if actions != [] {
      var next := Do(cfg, s, actions[0]);
      assert actions[0].Tick? || actions[0].tid == 0;
      assert next.threads.Keys <= {0};
      assert forall t :: t in s.threads ==> t in s.threads.Keys;
      OneThreadIsSerial(cfg, next, actions[1..], t);
    }
  }

  lemma OneThreadKeeps(cfg: Settings, actions: seq<Action>, s: System, c: Clause)
    requires cfg.Valid() && ThreadsBelow(actions, 1) && Leads(cfg, Initial, actions, s) && Quiet(s)
    ensures Satisfies(cfg, s.shared.b, c)
  {
    hide Leads, Serial, ThreadsBelow, Satisfies;
    OneThreadIsSerial(cfg, Initial, actions, s);
    SerialRunsKeepInv(cfg, actions, s);
    InvIsItsClauses(cfg, s.shared.b);
  }

  lemma FewerThreads(actions: seq<Action>, n: nat, m: nat)
    requires ThreadsBelow(actions, n) && n <= m
    ensures ThreadsBelow(actions, m)
  {
  }

  /** Two threads can break a clause, unless it is the one that no backend is lost. */
  lemma TwoThreadsBreak(c: Clause) returns (cfg: Settings, actions: seq<Action>, s: System)
    requires c != NotLost
    ensures cfg.Valid() && ThreadsBelow(actions, 2) && Leads(cfg, Initial, actions, s) && Quiet(s)
    ensures !Satisfies(cfg, s.shared.b, c)
  {
    hide Leads, ThreadsBelow, Quiet;
    match c
    case HealthyBelow => cfg, actions, s := HealthyCanBeAtThreshold();
    case UnhealthyBelow => cfg, actions, s := UnhealthyCanBeAtThreshold();
    case OneCounter => cfg, actions, s := BothCountersCanRun();
    case ProbeNotEjected => cfg, actions, s := ProbeCanBeEjected();
  }

  lemma NeverLost(cfg: Settings, actions: seq<Action>, s: System)
    requires Leads(cfg, Initial, actions, s) && Quiet(s)
    ensures Satisfies(cfg, s.shared.b, NotLost)
  {
    QuietMeansNotLost(cfg, actions, s);
  }

  /** Each clause of the invariant holds in every state in which no thread is inside a method exactly
      when there is at most one thread, except that no number of threads can lose a backend. */
  lemma ClauseKeptIff(n: nat, c: Clause)
    ensures KeptBy(n, c) <==> n <= 1 || c == NotLost
  {
    hide Leads, ThreadsBelow, Quiet, Satisfies;
    if n <= 1 || c == NotLost {
      forall cfg: Settings, actions: seq<Action>, s: System
        | cfg.Valid() && ThreadsBelow(actions, n) && Leads(cfg, Initial, actions, s) && Quiet(s)
        ensures Satisfies(cfg, s.shared.b, c)
      {
        if n <= 1 {
          FewerThreads(actions, n, 1);
          OneThreadKeeps(cfg, actions, s, c);
        } else {
          NeverLost(cfg, actions, s);
        }
      }
    } else {
      var cfg, actions, s := TwoThreadsBreak(c);
      FewerThreads(actions, 2, n);
    }
  }

  // ---------------------------------------------------------------------------------------------
  // What does not survive concurrency
  // ---------------------------------------------------------------------------------------------

  /** Takes one more action. */
  lemma {:induction false} Play(cfg: Settings, from: System, actions: seq<Action>, s: System, a: Action)
      returns (longer: seq<Action>, t: System)
    requires Leads(cfg, from, actions, s) && Enabled(s, a)
    requires ThreadsBelow(actions, 2) && (a.Tick? || a.tid < 2)
    ensures t == Do(cfg, s, a) && Leads(cfg, from, longer, t)
    ensures ThreadsBelow(longer, 2)
    decreases |actions|
  {
    t := Do(cfg, s, a);
    longer := actions + [a];
    if actions == [] {
      assert Leads(cfg, t, longer[1..], t);
    } else {
      var rest, _ := Play(cfg, Do(cfg, from, actions[0]), actions[1..], s, a);
      longer := [actions[0]] + rest;
      assert longer[1..] == rest;
    }
  }

  /** A thread enters a method and takes `n` steps of it, undisturbed. */
  lemma {:induction false} PlayOn(cfg: Settings, actions: seq<Action>, s: System, tid: Tid, entry: Pc, n: nat)
      returns (longer: seq<Action>, t: System)
    requires Leads(cfg, Initial, actions, s) && Enabled(s, Call(tid, entry))
    requires !s.shared.locked && ThreadsBelow(actions, 2) && tid < 2
    ensures Leads(cfg, Initial, longer, t) && t.clock == s.clock && ThreadsBelow(longer, 2)
    ensures t == s.(shared := After(cfg, s.shared, entry, s.clock, n).0,
                    threads := s.threads[tid := After(cfg, s.shared, entry, s.clock, n).1])
  {
    longer, t := Play(cfg, Initial, actions, s, Call(tid, entry));
    longer, t := Proceed(cfg, longer, t, tid, n);
    assert t.threads == s.threads[tid := t.threads[tid]];
  }

  /** The state of a thread that takes at most `n` steps, undisturbed. */
  function After(cfg: Settings, sh: Shared, pc: Pc, now: Instant, n: nat): (Shared, Pc)
    requires !sh.locked || pc.QueryProbe?
    decreases n
  {
    if n == 0 || Outside(pc) then (sh, pc)
    else
      var (next, then_) := Move(cfg, sh, pc, now);
      After(cfg, next, then_, now, n - 1)
  }

  lemma {:induction false} Proceed(cfg: Settings, actions: seq<Action>, s: System, tid: Tid, n: nat)
      returns (longer: seq<Action>, t: System)
    requires Leads(cfg, Initial, actions, s) && tid in s.threads && ThreadsBelow(actions, 2) && tid < 2
    requires !s.shared.locked || s.threads[tid].QueryProbe?
    ensures Leads(cfg, Initial, longer, t) && t.clock == s.clock && ThreadsBelow(longer, 2)
    ensures t == s.(shared := After(cfg, s.shared, s.threads[tid], s.clock, n).0,
                    threads := s.threads[tid := After(cfg, s.shared, s.threads[tid], s.clock, n).1])
    decreases n
  {
    hide Leads;
    longer, t := actions, s;
    if n > 0 && !Outside(s.threads[tid]) {
      longer, t := Play(cfg, Initial, actions, s, Advance(tid));
      longer, t := Proceed(cfg, longer, t, tid, n - 1);
    }
    assert s.threads[tid := s.threads[tid]] == s.threads;
  }

  function Sh(healthy: bool, failures: nat, successes: nat, ejectedUntil: Option<Instant>, probing: bool, row: nat): Shared {
    Shared(Breaker(healthy, failures, successes, ejectedUntil, probing), false, row)
  }

  lemma FailureCounts(cfg: Settings, h: bool, f: nat, s: nat, e: Option<Instant>, row: nat, now: Instant)
    ensures After(cfg, Sh(h, f, s, e, false, row), FailureClearSuccesses, now, 4)
         == (Sh(h, Bump(f), 0, e, false, row + 1),
             if h && Bump(f) >= cfg.failureThreshold then FailureUnhealthy(row + 1) else Idle)
  {
  }

  lemma FailureTrips(cfg: Settings, h: bool, f: nat, s: nat, e: Option<Instant>, p: bool, row: nat, now: Instant, own: nat)
    ensures After(cfg, Sh(h, f, s, e, p, row), FailureUnhealthy(own), now, 3)
         == (Sh(false, 0, s, Some(now + cfg.ejectionDuration), p, row), Idle)
  {
  }

  lemma SuccessClears(cfg: Settings, h: bool, f: nat, s: nat, e: Option<Instant>, row: nat, now: Instant)
    ensures After(cfg, Sh(h, f, s, e, false, row), SuccessClearFailures, now, 2)
         == (Sh(h, 0, s, e, false, 0), SuccessCount)
  {
  }

  lemma SuccessCounts(cfg: Settings, h: bool, f: nat, s: nat, e: Option<Instant>, row: nat, now: Instant)
    ensures After(cfg, Sh(h, f, s, e, false, row), SuccessCount, now, 2)
         == (Sh(h, f, Bump(s), e, false, row),
             if !h && Bump(s) >= cfg.recoveryThreshold then SuccessHealthy else Idle)
  {
  }

  lemma SuccessHeals(cfg: Settings, h: bool, f: nat, s: nat, e: Option<Instant>, row: nat, now: Instant)
    ensures After(cfg, Sh(h, f, s, e, false, row), SuccessHealthy, now, 2) == (Sh(true, f, 0, e, false, row), Idle)
  {
  }

  lemma QueryProbes(cfg: Settings, f: nat, s: nat, p: bool, row: nat, now: Instant)
    ensures After(cfg, Sh(false, f, s, Some(now), p, row), QueryLock, now, 4)
         == (Sh(false, f, s, None, true, row), Answered(true))
  {
  }

  /** Both counters can be positive when nobody is inside a method: a failure slips between the two
      steps in which a success clears one counter and bumps the other. */
  lemma BothCountersCanRun() returns (cfg: Settings, actions: seq<Action>, s: System)
    ensures cfg.Valid() && Leads(cfg, Initial, actions, s) && Quiet(s) && ThreadsBelow(actions, 2)
    ensures s.shared.b.failures > 0 && s.shared.b.successes > 0
  {
    hide Leads, After;
    cfg := Settings(2, 1, 1);
    Start(cfg);
    SuccessClears(cfg, true, 0, 0, None, 0, 0);
    actions, s := PlayOn(cfg, [], Initial, 0, SuccessClearFailures, 2);
    FailureCounts(cfg, true, 0, 0, None, 0, 0);
    actions, s := PlayOn(cfg, actions, s, 1, FailureClearSuccesses, 4);
    SuccessCounts(cfg, true, 1, 0, None, 1, 0);
    actions, s := Proceed(cfg, actions, s, 0, 2);
  }

  /** A healthy backend can be left with as many failures as the threshold: they were counted while a
      success was on its way to mark it healthy. */
  lemma HealthyCanBeAtThreshold() returns (cfg: Settings, actions: seq<Action>, s: System)
    ensures cfg.Valid() && Leads(cfg, Initial, actions, s) && Quiet(s) && ThreadsBelow(actions, 2)
    ensures s.shared.b.healthy && s.shared.b.failures >= cfg.failureThreshold
  {
    hide Leads, After;
    cfg := Settings(1, 1, 1);
    Start(cfg);
    FailureCounts(cfg, true, 0, 0, None, 0, 0);
    actions, s := PlayOn(cfg, [], Initial, 0, FailureClearSuccesses, 4);
    FailureTrips(cfg, true, 1, 0, None, false, 1, 0, 1);
    actions, s := Proceed(cfg, actions, s, 0, 3);
    SuccessClears(cfg, false, 0, 0, Some(1), 1, 0);
    actions, s := PlayOn(cfg, actions, s, 0, SuccessClearFailures, 2);
    SuccessCounts(cfg, false, 0, 0, Some(1), 0, 0);
    actions, s := Proceed(cfg, actions, s, 0, 2);
    FailureCounts(cfg, false, 0, 1, Some(1), 0, 0);
    actions, s := PlayOn(cfg, actions, s, 1, FailureClearSuccesses, 4);
    SuccessHeals(cfg, false, 1, 0, Some(1), 1, 0);
    actions, s := Proceed(cfg, actions, s, 0, 2);
  }

  /** A backend can be ejected and probed at once: of two failures that both saw it healthy, the
      second ejects it after the first's ejection has already expired into a probe. */
  lemma ProbeCanBeEjected() returns (cfg: Settings, actions: seq<Action>, s: System)
    ensures cfg.Valid() && Leads(cfg, Initial, actions, s) && Quiet(s) && ThreadsBelow(actions, 2)
    ensures s.shared.b.probing && s.shared.b.ejectedUntil.Some?
  {
    hide Leads, After;
    cfg := Settings(1, 1, 1);
    Start(cfg);
    FailureCounts(cfg, true, 0, 0, None, 0, 0);
    actions, s := PlayOn(cfg, [], Initial, 0, FailureClearSuccesses, 4);
    FailureCounts(cfg, true, 1, 0, None, 1, 0);
    actions, s := PlayOn(cfg, actions, s, 1, FailureClearSuccesses, 4);
    FailureTrips(cfg, true, 2, 0, None, false, 2, 0, 1);
    actions, s := Proceed(cfg, actions, s, 0, 3);
    actions, s := Play(cfg, Initial, actions, s, Tick(1));
    QueryProbes(cfg, 0, 0, false, 2, 1);
    actions, s := PlayOn(cfg, actions, s, 0, QueryLock, 4);
    FailureTrips(cfg, false, 0, 0, None, true, 2, 1, 2);
    actions, s := Proceed(cfg, actions, s, 1, 3);
  }

  /** An unhealthy backend can be left with as many successes as the threshold: one was counted while a
      failure, having cleared the counter, was on its way to mark it unhealthy. */
  lemma UnhealthyCanBeAtThreshold() returns (cfg: Settings, actions: seq<Action>, s: System)
    ensures cfg.Valid() && Leads(cfg, Initial, actions, s) && Quiet(s) && ThreadsBelow(actions, 2)
    ensures !s.shared.b.healthy && s.shared.b.successes >= cfg.recoveryThreshold
  {
    hide Leads, After;
    cfg := Settings(1, 1, 1);
    Start(cfg);
    SuccessClears(cfg, true, 0, 0, None, 0, 0);
    actions, s := PlayOn(cfg, [], Initial, 0, SuccessClearFailures, 2);
    FailureCounts(cfg, true, 0, 0, None, 0, 0);
    actions, s := PlayOn(cfg, actions, s, 1, FailureClearSuccesses, 4);
    SuccessCounts(cfg, true, 1, 0, None, 1, 0);
    actions, s := Proceed(cfg, actions, s, 0, 2);
    FailureTrips(cfg, true, 1, 1, None, false, 1, 0, 1);
    actions, s := Proceed(cfg, actions, s, 1, 3);
  }

  lemma Start(cfg: Settings)
    ensures Leads(cfg, Initial, [], Initial)
  {
  }
}
