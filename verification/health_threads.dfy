/** One backend's health state under real concurrency: any number of threads inside
    `record_success`, `record_failure` and `healthy_backends` at once, where every atomic load,
    store and `fetch_add` is a step of its own. Memory is sequentially consistent. */
module HealthThreads {
  import opened Common
  import opened CircuitBreaker

  type Tid = nat

  /** What a thread does next. */
  datatype Pc =
    | Idle
    // record_success
    | SuccessClearFailures
    | SuccessLoadProbing
    | SuccessStopProbing
    | SuccessProbeHealthy
    | SuccessProbeClear
    | SuccessCount
    | SuccessTest(successes: nat)
    | SuccessHealthy
    | SuccessClear
    // record_failure; `row` remembers how long the row of failures was when this one was counted
    | FailureClearSuccesses
    | FailureLoadProbing
    | FailureStopProbing
    | FailureProbeEject
    | FailureCount
    | FailureTest(failures: nat, row: nat)
    | FailureUnhealthy(row: nat)
    | FailureClear(row: nat)
    | FailureEject(row: nat)
    // the filter of healthy_backends; it holds the ejection lock at `QueryProbe`
    | QueryLock
    | QueryProbe
    | QueryLoadHealthy
    | QueryLoadProbing
    | Answered(offered: bool)

  /** The shared state. `row` counts the failures counted since a success last cleared the counter;
      it is an observation and has no influence. */
  datatype Shared = Shared(b: Breaker, locked: bool, row: nat)

  predicate NeedsLock(pc: Pc) {
    pc.QueryLock? || pc.FailureProbeEject? || pc.FailureEject?
  }

  predicate Outside(pc: Pc) {
    pc.Idle? || pc.Answered?
  }

  predicate CanMove(sh: Shared, pc: Pc) {
    !Outside(pc) && (NeedsLock(pc) ==> !sh.locked)
  }

  function Eject(cfg: Settings, sh: Shared, now: Instant): Shared {
    sh.(b := sh.b.(ejectedUntil := Some(now + cfg.ejectionDuration)))
  }

  /** One atomic step of one thread. */
  function Move(cfg: Settings, sh: Shared, pc: Pc, now: Instant): (Shared, Pc)
    requires CanMove(sh, pc)
  {
    var b := sh.b;
    match pc
    case SuccessClearFailures => (sh.(b := b.(failures := 0), row := 0), SuccessLoadProbing)
    case SuccessLoadProbing => (sh, if b.probing then SuccessStopProbing else SuccessCount)
    case SuccessStopProbing => (sh.(b := b.(probing := false)), SuccessProbeHealthy)
    case SuccessProbeHealthy => (sh.(b := b.(healthy := true)), SuccessProbeClear)
    case SuccessProbeClear => (sh.(b := b.(successes := 0)), Idle)
    case SuccessCount => (sh.(b := b.(successes := Bump(b.successes))), SuccessTest(Bump(b.successes)))
    case SuccessTest(successes) =>
      (sh, if !b.healthy && successes >= cfg.recoveryThreshold then SuccessHealthy else Idle)
    case SuccessHealthy => (sh.(b := b.(healthy := true)), SuccessClear)
    case SuccessClear => (sh.(b := b.(successes := 0)), Idle)

    case FailureClearSuccesses => (sh.(b := b.(successes := 0)), FailureLoadProbing)
    case FailureLoadProbing => (sh, if b.probing then FailureStopProbing else FailureCount)
    case FailureStopProbing => (sh.(b := b.(probing := false)), FailureProbeEject)
    case FailureProbeEject => (Eject(cfg, sh, now), Idle)
    case FailureCount =>
      (sh.(b := b.(failures := Bump(b.failures)), row := sh.row + 1), FailureTest(Bump(b.failures), sh.row + 1))
    case FailureTest(failures, row) =>
      (sh, if b.healthy && failures >= cfg.failureThreshold then FailureUnhealthy(row) else Idle)
    case FailureUnhealthy(row) => (sh.(b := b.(healthy := false)), FailureClear(row))
    case FailureClear(row) => (sh.(b := b.(failures := 0)), FailureEject(row))
    case FailureEject(row) => (Eject(cfg, sh, now), Idle)

    case QueryLock =>
      if Ejected(b, now) then (sh, Answered(false))
      else if b.ejectedUntil.Some? then (sh.(b := b.(ejectedUntil := None), locked := true), QueryProbe)
      else (sh, QueryLoadHealthy)
    case QueryProbe => (sh.(b := b.(probing := true), locked := false), QueryLoadHealthy)
    case QueryLoadHealthy => (sh, if b.healthy then Answered(true) else QueryLoadProbing)
    case QueryLoadProbing => (sh, Answered(b.probing))
    case _ => assert false; (sh, pc)
  }

  /** The steps a thread still has to take at most. */
  function StepsLeft(pc: Pc): nat {
    match pc
    case Idle => 0
    case Answered(_) => 0
    case SuccessClearFailures => 6
    case SuccessLoadProbing => 5
    case SuccessStopProbing => 3
    case SuccessProbeHealthy => 2
    case SuccessProbeClear => 1
    case SuccessCount => 4
    case SuccessTest(_) => 3
    case SuccessHealthy => 2
    case SuccessClear => 1
    case FailureClearSuccesses => 7
    case FailureLoadProbing => 6
    case FailureStopProbing => 2
    case FailureProbeEject => 1
    case FailureCount => 5
    case FailureTest(_, _) => 4
    case FailureUnhealthy(_) => 3
    case FailureClear(_) => 2
    case FailureEject(_) => 1
    case QueryLock => 4
    case QueryProbe => 3
    case QueryLoadHealthy => 2
    case QueryLoadProbing => 1
  }

  // ---------------------------------------------------------------------------------------------
  // One thread by itself does what the whole method does
  // ---------------------------------------------------------------------------------------------

  /** The rest of a method when nobody interferes. */
  function Alone(cfg: Settings, sh: Shared, pc: Pc, now: Instant): (Shared, Pc)
    requires !sh.locked || pc.QueryProbe?
    decreases StepsLeft(pc)
  {
    if Outside(pc) then (sh, pc)
    else
      var (next, then_) := Move(cfg, sh, pc, now);
      Alone(cfg, next, then_, now)
  }

  lemma {:induction false} AloneIsTheMethod(cfg: Settings, sh: Shared, now: Instant)
    requires !sh.locked
    ensures Alone(cfg, sh, SuccessClearFailures, now).0.b == OnSuccess(cfg, sh.b).0
    ensures Alone(cfg, sh, FailureClearSuccesses, now).0.b == OnFailure(cfg, sh.b, now).0
    ensures Alone(cfg, sh, QueryLock, now).0.b == OnQuery(sh.b, now)
    ensures Alone(cfg, sh, QueryLock, now).1 == Answered(Offered(sh.b, now))
  {
    AloneSuccess(cfg, sh, now);
    AloneFailure(cfg, sh, now);
    AloneQuery(cfg, sh, now);
  }

  lemma AloneSuccess(cfg: Settings, sh: Shared, now: Instant)
    requires !sh.locked
    ensures Alone(cfg, sh, SuccessClearFailures, now).0.b == OnSuccess(cfg, sh.b).0
  {
    var s1 := Move(cfg, sh, SuccessClearFailures, now).0;
    if s1.b.probing {
      var s2 := Move(cfg, s1, SuccessStopProbing, now).0;
      var s3 := Move(cfg, s2, SuccessProbeHealthy, now).0;
      assert Alone(cfg, s3, SuccessProbeClear, now).0.b == OnSuccess(cfg, sh.b).0;
      assert Alone(cfg, s1, SuccessStopProbing, now) == Alone(cfg, s3, SuccessProbeClear, now);
    } else {
      var s2 := Move(cfg, s1, SuccessCount, now).0;
      assert Alone(cfg, s1, SuccessCount, now) == Alone(cfg, s2, SuccessTest(s2.b.successes), now);
      assert Alone(cfg, s2, SuccessTest(s2.b.successes), now).0.b == OnSuccess(cfg, sh.b).0;
    }
    assert Alone(cfg, sh, SuccessClearFailures, now) == Alone(cfg, s1, SuccessLoadProbing, now);
  }

  lemma AloneFailure(cfg: Settings, sh: Shared, now: Instant)
    requires !sh.locked
    ensures Alone(cfg, sh, FailureClearSuccesses, now).0.b == OnFailure(cfg, sh.b, now).0
  {
    var s1 := Move(cfg, sh, FailureClearSuccesses, now).0;
    if s1.b.probing {
      var s2 := Move(cfg, s1, FailureStopProbing, now).0;
      assert Alone(cfg, s2, FailureProbeEject, now).0.b == OnFailure(cfg, sh.b, now).0;
      assert Alone(cfg, s1, FailureStopProbing, now) == Alone(cfg, s2, FailureProbeEject, now);
    } else {
      var s2 := Move(cfg, s1, FailureCount, now).0;
      var test := FailureTest(s2.b.failures, s2.row);
      assert Alone(cfg, s1, FailureCount, now) == Alone(cfg, s2, test, now);
      if s2.b.healthy && s2.b.failures >= cfg.failureThreshold {
        var s3 := Move(cfg, s2, FailureUnhealthy(s2.row), now).0;
        assert Alone(cfg, s2, test, now) == Alone(cfg, s2, FailureUnhealthy(s2.row), now)
            == Alone(cfg, s3, FailureClear(s2.row), now);
        var s4 := Move(cfg, s3, FailureClear(s2.row), now).0;
        assert Alone(cfg, s3, FailureClear(s2.row), now) == Alone(cfg, s4, FailureEject(s2.row), now);
        assert Alone(cfg, s4, FailureEject(s2.row), now).0.b == OnFailure(cfg, sh.b, now).0;
      }
    }
    assert Alone(cfg, sh, FailureClearSuccesses, now) == Alone(cfg, s1, FailureLoadProbing, now);
  }

  lemma AloneQuery(cfg: Settings, sh: Shared, now: Instant)
    requires !sh.locked
    ensures Alone(cfg, sh, QueryLock, now).0.b == OnQuery(sh.b, now)
    ensures Alone(cfg, sh, QueryLock, now).1 == Answered(Offered(sh.b, now))
  {
    if !Ejected(sh.b, now) {
      var (s1, pc) := Move(cfg, sh, QueryLock, now);
      var s2 := if pc.QueryProbe? then Move(cfg, s1, QueryProbe, now).0 else s1;
      assert Alone(cfg, sh, QueryLock, now) == Alone(cfg, s2, QueryLoadHealthy, now);
      assert Alone(cfg, s2, QueryLoadHealthy, now) == (s2, Answered(s2.b.healthy || s2.b.probing));
    }
  }

  // ---------------------------------------------------------------------------------------------
  // All threads together
  // ---------------------------------------------------------------------------------------------

  datatype System = System(shared: Shared, threads: map<Tid, Pc>, clock: Instant)

  const Initial := System(Shared(Fresh, false, 0), map[], 0)

  datatype Action =
    | Tick(to: Instant)            // time passes
    | Call(tid: Tid, method_: Pc)  // a thread, possibly a new one, enters a method
    | Advance(tid: Tid)            // a thread takes its next step

  predicate Enabled(s: System, a: Action) {
    match a
    case Tick(to) => s.clock <= to
    case Call(tid, m) =>
      && (tid in s.threads ==> Outside(s.threads[tid]))
      && (m == SuccessClearFailures || m == FailureClearSuccesses || m == QueryLock)
    case Advance(tid) => tid in s.threads && CanMove(s.shared, s.threads[tid])
  }

  function Do(cfg: Settings, s: System, a: Action): System
    requires Enabled(s, a)
  {
    match a
    case Tick(to) => s.(clock := to)
    case Call(tid, m) => s.(threads := s.threads[tid := m])
    case Advance(tid) =>
      var (shared, pc) := Move(cfg, s.shared, s.threads[tid], s.clock);
      s.(shared := shared, threads := s.threads[tid := pc])
  }

  /** `t` can be reached from `s` by interleaving the actions in this order. */
  predicate Leads(cfg: Settings, s: System, actions: seq<Action>, t: System)
    decreases |actions|
  {
    if actions == [] then s == t
    else Enabled(s, actions[0]) && Leads(cfg, Do(cfg, s, actions[0]), actions[1..], t)
  }

  /** The backend is out of the pool for good unless somebody does something about it. */
  predicate Lost(b: Breaker) {
    !b.healthy && b.ejectedUntil.None? && !b.probing
  }

  /** The thread is committed to setting `healthy`, setting `probing` or ejecting. */
  predicate Committed(pc: Pc) {
    || pc.SuccessProbeHealthy? || pc.SuccessHealthy?
    || pc.FailureProbeEject? || pc.FailureClear? || pc.FailureEject?
    || pc.QueryProbe?
  }

  ghost predicate SomebodyCommitted(s: System) {
    exists t :: t in s.threads && Committed(s.threads[t])
  }

  ghost predicate LossCovered(s: System) {
    Lost(s.shared.b) ==> SomebodyCommitted(s)
  }

  /** The lock is held by exactly the thread at `QueryProbe`, and no deadline is set meanwhile. */
  ghost predicate LockOk(s: System) {
    && (s.shared.locked ==> exists t :: t in s.threads && s.threads[t].QueryProbe?)
    && (forall t :: t in s.threads && s.threads[t].QueryProbe? ==> s.shared.locked)
    && (forall t, u :: t in s.threads && u in s.threads && s.threads[t].QueryProbe? && s.threads[u].QueryProbe? ==> t == u)
    && (s.shared.locked ==> s.shared.b.ejectedUntil.None?)
  }

  /** Deadlines are at most one ejection ahead. */
  predicate DeadlineOk(cfg: Settings, s: System) {
    s.shared.b.ejectedUntil.Some? ==> s.shared.b.ejectedUntil.value <= s.clock + cfg.ejectionDuration
  }

  ghost predicate RowsOk(cfg: Settings, s: System) {
    && s.shared.b.failures <= s.shared.row
    && (forall t :: t in s.threads ==> RowOk(cfg, s.threads[t]))
  }

  ghost predicate Inv(cfg: Settings, s: System) {
    LossCovered(s) && LockOk(s) && DeadlineOk(cfg, s) && RowsOk(cfg, s)
  }

  predicate RowOk(cfg: Settings, pc: Pc) {
    match pc
    case FailureTest(failures, row) => failures <= row
    case FailureUnhealthy(row) => cfg.failureThreshold <= row
    case FailureClear(row) => cfg.failureThreshold <= row
    case FailureEject(row) => cfg.failureThreshold <= row
    case _ => true
  }

  lemma StepKeepsLossCovered(cfg: Settings, s: System, a: Action)
    requires LossCovered(s) && Enabled(s, a)
    ensures LossCovered(Do(cfg, s, a))
  {
    var s' := Do(cfg, s, a);
    if Lost(s'.shared.b) {
      if Lost(s.shared.b) {
        var c :| c in s.threads && Committed(s.threads[c]);
        assert c in s'.threads && Committed(s'.threads[c]);
      } else {
        assert Committed(s'.threads[a.tid]);
      }
    }
  }

  lemma StepKeepsLockOk(cfg: Settings, s: System, a: Action)
    requires LockOk(s) && Enabled(s, a)
    ensures LockOk(Do(cfg, s, a))
  {
    var s' := Do(cfg, s, a);
    if s'.shared.locked {
      if s.shared.locked {
        var h :| h in s.threads && s.threads[h].QueryProbe?;
        assert h in s'.threads && s'.threads[h].QueryProbe?;
      } else {
        assert s'.threads[a.tid].QueryProbe?;
      }
    }
  }

  lemma StepKeepsRowsOk(cfg: Settings, s: System, a: Action)
    requires RowsOk(cfg, s) && Enabled(s, a)
    ensures RowsOk(cfg, Do(cfg, s, a))
  {
    if a.Advance? {
      assert RowOk(cfg, s.threads[a.tid]);
    }
  }

  lemma StepKeepsInv(cfg: Settings, s: System, a: Action)
    requires Inv(cfg, s) && Enabled(s, a)
    ensures Inv(cfg, Do(cfg, s, a))
  {
    StepKeepsLossCovered(cfg, s, a);
    StepKeepsLockOk(cfg, s, a);
    StepKeepsRowsOk(cfg, s, a);
  }

  lemma {:induction false} RunKeepsInv(cfg: Settings, s: System, actions: seq<Action>, t: System)
    requires Inv(cfg, s) && Leads(cfg, s, actions, t)
    ensures Inv(cfg, t)
    decreases |actions|
  {
    if actions != [] {
      StepKeepsInv(cfg, s, actions[0]);
      RunKeepsInv(cfg, Do(cfg, s, actions[0]), actions[1..], t);
    }
  }

  // ---------------------------------------------------------------------------------------------
  // Main results
  // ---------------------------------------------------------------------------------------------

  /** Under every interleaving, a backend that is neither healthy nor ejected nor probed has some
      thread that is about to change that. One such thread can move at once, and its next step
      either ends the loss or leaves nothing but the ejection to do. */
  lemma LossIsBeingRepaired(cfg: Settings, actions: seq<Action>, s: System)
    requires Leads(cfg, Initial, actions, s) && Lost(s.shared.b)
    ensures exists t :: t in s.threads && Committed(s.threads[t]) && Repairs(cfg, s, t)
  {
    RunKeepsInv(cfg, Initial, actions, s);
    hide Leads, Repairs, RowsOk;
    if s.shared.locked {
      var h :| h in s.threads && s.threads[h].QueryProbe?;
      CommittedRepairs(cfg, s, h);
    } else {
      var c :| c in s.threads && Committed(s.threads[c]);
      CommittedRepairs(cfg, s, c);
    }
  }

  lemma CommittedRepairs(cfg: Settings, s: System, tid: Tid)
    requires Lost(s.shared.b) && tid in s.threads && Committed(s.threads[tid]) && CanMove(s.shared, s.threads[tid])
    ensures Repairs(cfg, s, tid)
  {
  }

  predicate Repairs(cfg: Settings, s: System, tid: Tid) {
    && Enabled(s, Advance(tid))
    && var next := Do(cfg, s, Advance(tid));
       !Lost(next.shared.b) || next.threads[tid].FailureEject?
  }

  ghost predicate Quiet(s: System) {
    forall t :: t in s.threads ==> Outside(s.threads[t])
  }

  /** Whenever no thread is inside a method the backend is not lost: a query is answered with it
      exactly when its ejection deadline is absent or past. */
  lemma QuietMeansNotLost(cfg: Settings, actions: seq<Action>, s: System)
    requires Leads(cfg, Initial, actions, s) && Quiet(s)
    ensures !Lost(s.shared.b) && !s.shared.locked
    ensures Alone(cfg, s.shared, QueryLock, s.clock).1
         == Answered(s.shared.b.ejectedUntil.None? || s.shared.b.ejectedUntil.value <= s.clock)
  {
    RunKeepsInv(cfg, Initial, actions, s);
    hide Leads, Alone;
    AloneQuery(cfg, s.shared, s.clock);
  }

  /** A thread only marks the backend unhealthy after counting a failure that ended a row of at least
      `failureThreshold` failures, none of them followed by a success that cleared the counter. */
  lemma UnhealthyNeedsARow(cfg: Settings, actions: seq<Action>, s: System, tid: Tid)
    requires Leads(cfg, Initial, actions, s)
    requires tid in s.threads && CanMove(s.shared, s.threads[tid])
    requires s.shared.b.healthy && !Do(cfg, s, Advance(tid)).shared.b.healthy
    ensures s.threads[tid].FailureUnhealthy? && s.threads[tid].row >= cfg.failureThreshold
  {
    RunKeepsInv(cfg, Initial, actions, s);
    hide Leads, LossCovered, LockOk, DeadlineOk;
  }

  lemma {:induction false} DeadlineHolds(cfg: Settings, s: System, actions: seq<Action>, t: System, deadline: Instant)
    requires Inv(cfg, s) && Leads(cfg, s, actions, t)
    requires s.shared.b.ejectedUntil.Some? && deadline <= s.shared.b.ejectedUntil.value
    requires deadline <= s.clock + cfg.ejectionDuration && t.clock < deadline
    ensures s.clock <= t.clock
    ensures t.shared.b.ejectedUntil.Some? && deadline <= t.shared.b.ejectedUntil.value
    decreases |actions|
  {
    if actions != [] {
      var next := Do(cfg, s, actions[0]);
      StepKeepsInv(cfg, s, actions[0]);
      ClockGrows(cfg, next, actions[1..], t);
      DeadlineHolds(cfg, next, actions[1..], t, deadline);
    }
  }

  lemma {:induction false} ClockGrows(cfg: Settings, s: System, actions: seq<Action>, t: System)
    requires Leads(cfg, s, actions, t)
    ensures s.clock <= t.clock
    decreases |actions|
  {
    if actions != [] {
      ClockGrows(cfg, Do(cfg, s, actions[0]), actions[1..], t);
    }
  }

  /** Even under every interleaving, an ejection holds: from the step that ejects until the deadline
      it sets, every query that takes the lock turns the backend away. */
  lemma EjectionHolds(cfg: Settings, before: seq<Action>, s: System, ejector: Tid, after: seq<Action>, t: System, tid: Tid)
    requires Leads(cfg, Initial, before, s)
    requires ejector in s.threads && CanMove(s.shared, s.threads[ejector])
    requires s.threads[ejector].FailureEject? || s.threads[ejector].FailureProbeEject?
    requires Leads(cfg, Do(cfg, s, Advance(ejector)), after, t)
    requires t.clock < s.clock + cfg.ejectionDuration
    requires tid in t.threads && t.threads[tid] == QueryLock
    ensures CanMove(t.shared, QueryLock) && Do(cfg, t, Advance(tid)).threads[tid] == Answered(false)
  {
    hide Leads, Inv;
    RunKeepsInv(cfg, Initial, before, s);
    StepKeepsInv(cfg, s, Advance(ejector));
    var ejected := Do(cfg, s, Advance(ejector));
    RunKeepsInv(cfg, ejected, after, t);
    DeadlineHolds(cfg, ejected, after, t, s.clock + cfg.ejectionDuration);
    TurnedAway(cfg, t, tid);
  }

  lemma TurnedAway(cfg: Settings, s: System, tid: Tid)
    requires Inv(cfg, s) && s.shared.b.ejectedUntil.Some? && s.clock < s.shared.b.ejectedUntil.value
    requires tid in s.threads && s.threads[tid] == QueryLock
    ensures CanMove(s.shared, QueryLock) && Do(cfg, s, Advance(tid)).threads[tid] == Answered(false)
  {
  }
}
