/** Graceful shutdown (`src/server/mod.rs`): the connection tracker, the accept loop, and the wait for
    the last connection, as interleaved steps. */
module Drain {
  import opened Common

  // ---------------------------------------------------------------------------------------------
  // The tracker
  // ---------------------------------------------------------------------------------------------

  /** How many connections are active, and how often waiters have been notified. */
  datatype Tracker = Tracker(active: nat, notifications: nat)

  function Opened(t: Tracker): Tracker {
    t.(active := t.active + 1)
  }

  /** The close that sees a one notifies. */
  function Closed(t: Tracker): Tracker
    requires t.active > 0
  {
    Tracker(t.active - 1, t.notifications + if t.active == 1 then 1 else 0)
  }

  class ConnectionTracker {
    var active: nat
    var notifications: nat

    constructor ()
      ensures View() == Tracker(0, 0)
    {
      active, notifications := 0, 0;
    }

    function View(): Tracker
      reads this
    {
      Tracker(active, notifications)
    }

    method Open()
      modifies this
      ensures View() == Opened(old(View()))
    {
      active := active + 1;
    }

    method Close()
      requires active > 0
      modifies this
      ensures View() == Closed(old(View()))
    {
      var before := active;
      active := active - 1;
      if before == 1 {
        notifications := notifications + 1;
      }
    }
  }

  // ---------------------------------------------------------------------------------------------
  // Connections, the accept loop and the waiter, step by step
  // ---------------------------------------------------------------------------------------------

  type Id = nat

  /** A connection: served, closed but still to notify the waiter, or done. */
  datatype Conn = Served | MustNotify | Gone

  /** `wait_for_zero`. Between the test of the loop and the creation of the `Notified` future lies a
      gap; `stale` says that the last notification fell into it. The timeout polls the wait first and
      its timer second; `polled` says that it is between the two, `woken` that the future has been
      notified, and `heard` that the last notification has reached it. */
  datatype Waiter =
    | NotCalled
    | FirstTest
    | LoopTest
    | Registering(stale: bool)
    | Waiting(polled: bool, woken: bool, stale: bool, heard: bool)
    | Returned(drained: bool)

  datatype System = System(
    tracker: Tracker,
    accepted: nat,
    closed: nat,
    zeros: nat,             // closes that took the count to zero
    conns: map<Id, Conn>,
    waiter: Waiter,
    activeAtShutdown: nat,
    zerosAtShutdown: nat)
  {
    function Active(): nat {
      tracker.active
    }
  }

  const Initial := System(Tracker(0, 0), 0, 0, 0, map[], NotCalled, 0, 0)

  function InState(s: System, c: Conn): set<Id> {
    set i | i in s.conns && s.conns[i] == c
  }

  datatype Action =
    | Accept(id: Id)
    | Decrement(id: Id)   // the first half of close
    | Notify(id: Id)      // the second half, for the close that saw a one
    | Shutdown
    | Wait                // the waiter's next step
    | Timeout

  predicate Enabled(s: System, a: Action) {
    match a
    case Accept(id) => s.waiter.NotCalled? && id !in s.conns
    case Decrement(id) => id in s.conns && s.conns[id] == Served && s.Active() > 0
    case Notify(id) => id in s.conns && s.conns[id] == MustNotify
    case Shutdown => s.waiter.NotCalled?
    case Wait => s.waiter.FirstTest? || s.waiter.LoopTest? || s.waiter.Registering? || s.waiter.Waiting?
    case Timeout => s.waiter.Waiting? && s.waiter.polled
  }

  function Do(s: System, a: Action): System
    requires Enabled(s, a)
  {
    match a
    case Accept(id) =>
      s.(tracker := s.tracker.(active := s.Active() + 1), accepted := s.accepted + 1, conns := s.conns[id := Served])
    case Decrement(id) =>
      var zero := s.Active() == 1;
      s.(tracker := s.tracker.(active := s.Active() - 1), closed := s.closed + 1,
         zeros := if zero then s.zeros + 1 else s.zeros,
         conns := s.conns[id := if zero then MustNotify else Gone])
    case Notify(id) =>
      var last := s.Active() == 0 && InState(s, MustNotify) == {id};
      s.(tracker := s.tracker.(notifications := s.tracker.notifications + 1),
         conns := s.conns[id := Gone],
         waiter := match s.waiter
                   case Registering(stale) => Registering(stale || last)
                   case Waiting(polled, _, stale, heard) => Waiting(polled, true, stale, heard || last)
                   case w => w)
    case Shutdown => s.(waiter := FirstTest, activeAtShutdown := s.Active(), zerosAtShutdown := s.zeros)
    case Wait =>
      s.(waiter := match s.waiter
                   case FirstTest => if s.Active() == 0 then Returned(true) else LoopTest
                   case LoopTest => if s.Active() != 0 then Registering(false) else Returned(true)
                   case Registering(stale) => Waiting(false, false, stale, false)
                   case Waiting(polled, woken, stale, heard) =>
                     if polled then Waiting(false, woken, stale, heard)  // the timer has not expired
                     else if woken then LoopTest
                     else Waiting(true, false, stale, heard)
                   case w => w)
    case Timeout => s.(waiter := Returned(false))
  }

  /** A connection is accepted in one step, which is `Open`. */
  lemma AcceptIsOpen(s: System, id: Id)
    requires Enabled(s, Accept(id))
    ensures Do(s, Accept(id)).tracker == Opened(s.tracker)
  {
  }

  /** The two halves of a close, without interference, are `Close`. */
  lemma DecrementAndNotifyIsClose(s: System, id: Id)
    requires Enabled(s, Decrement(id))
    ensures var half := Do(s, Decrement(id));
            && (Enabled(half, Notify(id)) <==> half.Active() == 0)
            && Closed(s.tracker) == if Enabled(half, Notify(id)) then Do(half, Notify(id)).tracker else half.tracker
  {
  }

  predicate Leads(s: System, actions: seq<Action>, t: System)
    decreases |actions|
  {
    if actions == [] then s == t
    else Enabled(s, actions[0]) && Leads(Do(s, actions[0]), actions[1..], t)
  }

  // ---------------------------------------------------------------------------------------------
  // What every state satisfies
  // ---------------------------------------------------------------------------------------------

  ghost predicate Counting(s: System) {
    && s.Active() == |InState(s, Served)|
    && s.accepted == s.closed + s.Active()
    && s.zeros == s.tracker.notifications + |InState(s, MustNotify)|
  }

  ghost predicate Draining(s: System) {
    !s.waiter.NotCalled? ==>
      && s.zeros == s.zerosAtShutdown + (if s.Active() == 0 && s.activeAtShutdown > 0 then 1 else 0)
      && s.Active() <= s.activeAtShutdown
  }

  predicate StaleOf(w: Waiter) {
    (w.Registering? || w.Waiting?) && w.stale
  }

  predicate HeardOf(w: Waiter) {
    w.Waiting? && w.heard
  }

  ghost predicate AllClosed(s: System) {
    s.Active() == 0 && InState(s, MustNotify) == {}
  }

  ghost predicate Waking(s: System) {
    && (s.waiter == Returned(true) ==> s.Active() == 0)
    // from its registration on, the waiter has missed or heard the last notification once it is out
    && (s.waiter.Registering? || s.waiter.Waiting? ==> (AllClosed(s) <==> StaleOf(s.waiter) || HeardOf(s.waiter)))
    && !(StaleOf(s.waiter) && HeardOf(s.waiter))
    // a stale waiter is never woken
    && (s.waiter.Waiting? && s.waiter.stale ==> !s.waiter.woken)
    && (HeardOf(s.waiter) ==> s.waiter.woken)
  }

  lemma AcceptCounts(s: System, id: Id)
    requires Counting(s) && Enabled(s, Accept(id))
    ensures Counting(Do(s, Accept(id)))
  {
    ConnectionChanges(s, id, Served, Do(s, Accept(id)));
    hide InState;
    SetSizes(InState(s, Served), id);
    SetSizes(InState(s, MustNotify), id);
  }

  lemma DecrementCounts(s: System, id: Id)
    requires Counting(s) && Enabled(s, Decrement(id))
    ensures Counting(Do(s, Decrement(id)))
  {
    ConnectionChanges(s, id, if s.Active() == 1 then MustNotify else Gone, Do(s, Decrement(id)));
    hide InState;
    SetSizes(InState(s, Served), id);
    SetSizes(InState(s, MustNotify), id);
  }

  lemma NotifyCounts(s: System, id: Id)
    requires Counting(s) && Enabled(s, Notify(id))
    ensures Counting(Do(s, Notify(id)))
  {
    ConnectionChanges(s, id, Gone, Do(s, Notify(id)));
    hide InState;
    SetSizes(InState(s, Served), id);
    SetSizes(InState(s, MustNotify), id);
  }

  /** The connections served and those about to notify, after one of them has changed. */
  lemma ConnectionChanges(s: System, id: Id, c: Conn, t: System)
    requires t.conns == s.conns[id := c]
    ensures InState(t, Served) == if c == Served then InState(s, Served) + {id} else InState(s, Served) - {id}
    ensures InState(t, MustNotify) == if c == MustNotify then InState(s, MustNotify) + {id} else InState(s, MustNotify) - {id}
    ensures forall d :: id in InState(s, d) <==> id in s.conns && s.conns[id] == d
  {
  }

  lemma StepKeepsCounting(s: System, a: Action)
    requires Counting(s) && Enabled(s, a)
    ensures Counting(Do(s, a))
  {
    match a
    case Accept(id) => AcceptCounts(s, id);
    case Decrement(id) => DecrementCounts(s, id);
    case Notify(id) => NotifyCounts(s, id);
    case _ =>
      var t := Do(s, a);
      assert InState(t, Served) == InState(s, Served) && InState(t, MustNotify) == InState(s, MustNotify);
  }

  lemma StepKeepsWaking(s: System, a: Action)
    requires Waking(s) && Enabled(s, a)
    ensures Waking(Do(s, a))
  {
    var t := Do(s, a);
    match a
    case Accept(_) =>
    case Decrement(id) =>
      if s.Active() == 1 {
        assert id in InState(t, MustNotify);
      }
    case Notify(id) =>
      assert id in InState(s, MustNotify);
      assert InState(t, MustNotify) == InState(s, MustNotify) - {id};
      if InState(t, MustNotify) == {} {
        assert InState(s, MustNotify) == {id};
      }
    case _ =>
      assert InState(t, MustNotify) == InState(s, MustNotify);
  }

  ghost predicate Inv(s: System) {
    Counting(s) && Draining(s) && Waking(s)
  }

  lemma {:induction false} RunKeepsInv(s: System, actions: seq<Action>, t: System)
    requires Inv(s) && Leads(s, actions, t)
    ensures Inv(t)
    decreases |actions|
  {
    if actions != [] {
      StepKeepsCounting(s, actions[0]);
      StepKeepsWaking(s, actions[0]);
      RunKeepsInv(Do(s, actions[0]), actions[1..], t);
    }
  }

  // ---------------------------------------------------------------------------------------------
  // Main results
  // ---------------------------------------------------------------------------------------------

  lemma Reachable(actions: seq<Action>, s: System)
    requires Leads(Initial, actions, s)
    ensures Inv(s)
  {
    hide Leads, Inv;
    InitialInv();
    RunKeepsInv(Initial, actions, s);
  }

  lemma InitialInv()
    ensures Inv(Initial)
  {
    assert InState(Initial, Served) == {};
  }

  lemma NobodyIn(s: System, c: Conn)
    requires InState(s, c) == {}
    ensures forall i :: i in s.conns ==> s.conns[i] != c
  {
    assert forall i :: i in s.conns ==> (s.conns[i] == c <==> i in InState(s, c));
  }

  /** Under every interleaving the count is the number of connections opened and not yet closed; every
      served connection finds it positive when it closes, so it never underflows; and the closes that took
      it to zero, and only they, have notified or are about to. */
  lemma CountIsExact(actions: seq<Action>, s: System)
    requires Leads(Initial, actions, s)
    ensures s.Active() == s.accepted - s.closed == |InState(s, Served)|
    ensures s.zeros == s.tracker.notifications + |InState(s, MustNotify)|
    ensures forall i :: i in s.conns && s.conns[i] == Served ==> Enabled(s, Decrement(i))
  {
    Reachable(actions, s);
    hide Leads;
    forall i | i in s.conns && s.conns[i] == Served ensures s.Active() > 0 {
      assert i in InState(s, Served);
    }
  }

  lemma {:induction false} NothingOpensWhileDraining(s: System, actions: seq<Action>, t: System)
    requires !s.waiter.NotCalled? && Leads(s, actions, t)
    ensures t.accepted == s.accepted && !t.waiter.NotCalled? && t.activeAtShutdown == s.activeAtShutdown && t.zerosAtShutdown == s.zerosAtShutdown
    decreases |actions|
  {
    if actions != [] {
      NothingOpensWhileDraining(Do(s, actions[0]), actions[1..], t);
    }
  }

  /** Once the shutdown has begun nothing is opened any more, and of all the closes exactly one takes
      the count to zero, as soon as all are done, if there was a connection to close. */
  lemma OneLastClose(before: seq<Action>, s: System, after: seq<Action>, t: System)
    requires Leads(Initial, before, s) && s.waiter.NotCalled?
    requires Leads(Do(s, Shutdown), after, t)
    ensures t.accepted == s.accepted
    ensures t.zeros == s.zeros + if t.Active() == 0 && s.Active() > 0 then 1 else 0
  {
    hide Leads;
    Reachable(before, s);
    StepKeepsCounting(s, Shutdown);
    StepKeepsWaking(s, Shutdown);
    RunKeepsInv(Do(s, Shutdown), after, t);
    NothingOpensWhileDraining(Do(s, Shutdown), after, t);
  }

  /** The wait only reports success when every connection ever opened has closed. */
  lemma DrainedMeansAllClosed(actions: seq<Action>, s: System)
    requires Leads(Initial, actions, s) && s.waiter == Returned(true)
    ensures s.Active() == 0 && s.closed == s.accepted && InState(s, Served) == {}
  {
    Reachable(actions, s);
    hide Leads;
  }

  /** When the wait times out, every connection has closed and notified exactly when the last notification
      was missed, having come between the test and the registration, or came too late, between the poll of
      the wait and that of its timer. Otherwise a connection is still served or about to notify. */
  lemma TimeoutMeans(actions: seq<Action>, s: System)
    requires Leads(Initial, actions, s) && Enabled(s, Timeout)
    ensures s.Active() == 0 && InState(s, MustNotify) == {} <==> s.waiter.stale || s.waiter.heard
    ensures !(s.waiter.stale && s.waiter.heard)
  {
    Reachable(actions, s);
    hide Leads;
  }

  /** The wait fails only by its timer, and a test that finds no connection ends it with success. */
  lemma OnlyTheTimerFails(s: System, a: Action)
    requires Enabled(s, a)
    ensures Do(s, a).waiter == Returned(false) && s.waiter != Returned(false) ==> a == Timeout
    ensures a == Wait && (s.waiter.FirstTest? || s.waiter.LoopTest?) && s.Active() == 0 ==> Do(s, a).waiter == Returned(true)
    ensures a == Wait && (s.waiter.FirstTest? || s.waiter.LoopTest?) && s.Active() > 0 ==> !Do(s, a).waiter.Returned?
  {
  }

  lemma {:induction false} StaleStays(s: System, actions: seq<Action>, t: System)
    requires Inv(s) && StaleOf(s.waiter) && Leads(s, actions, t)
    ensures StaleOf(t.waiter) || t.waiter == Returned(false)
    decreases |actions|
  {
    if actions != [] {
      StepKeepsCounting(s, actions[0]);
      StepKeepsWaking(s, actions[0]);
      if actions[0] == Timeout {
        ReturnedStays(Do(s, Timeout), actions[1..], t);
      } else {
        NobodyIn(s, MustNotify);
        StaleStays(Do(s, actions[0]), actions[1..], t);
      }
    }
  }

  lemma {:induction false} ReturnedStays(s: System, actions: seq<Action>, t: System)
    requires s.waiter.Returned? && Leads(s, actions, t)
    ensures t.waiter == s.waiter
    decreases |actions|
  {
    if actions != [] {
      ReturnedStays(Do(s, actions[0]), actions[1..], t);
    }
  }

  /** A missed notification cannot be made up for: the wait then ends with a timeout, although every
      connection has closed. */
  lemma MissedNotificationIsFinal(before: seq<Action>, s: System, after: seq<Action>, t: System)
    requires Leads(Initial, before, s) && StaleOf(s.waiter) && Leads(s, after, t)
    ensures t.waiter != Returned(true) && t.Active() == 0
  {
    hide Leads;
    Reachable(before, s);
    StaleStays(s, after, t);
    StaleCountStays(s, after, t);
  }

  lemma {:induction false} StaleCountStays(s: System, actions: seq<Action>, t: System)
    requires s.Active() == 0 && !s.waiter.NotCalled? && Leads(s, actions, t)
    ensures t.Active() == 0
    decreases |actions|
  {
    if actions != [] {
      StaleCountStays(Do(s, actions[0]), actions[1..], t);
    }
  }

  /** One connection, up to the point where the waiter has found it active. */
  function Registered(): System {
    System(Tracker(1, 0), 1, 0, 0, map[0 := Served], Registering(false), 1, 0)
  }

  lemma UpToRegistration() returns (actions: seq<Action>)
    ensures Leads(Initial, actions, Registered())
  {
    var s3 := Registered();
    First(s3.(waiter := LoopTest), Wait, [], s3);
    hide Leads;
    First(s3.(waiter := FirstTest), Wait, [Wait], s3);
    First(s3.(waiter := NotCalled, activeAtShutdown := 0), Shutdown, [Wait] + [Wait], s3);
    First(Initial, Accept(0), [Shutdown] + ([Wait] + [Wait]), s3);
    actions := [Accept(0)] + ([Shutdown] + ([Wait] + [Wait]));
  }

  /** The connection closes and notifies. */
  function Emptied(w: Waiter): System {
    System(Tracker(0, 1), 1, 1, 1, map[0 := Gone], w, 1, 0)
  }

  function Closing(w: Waiter): System {
    System(Tracker(0, 0), 1, 1, 1, map[0 := MustNotify], w, 1, 0)
  }

  lemma ConnectionCloses(w: Waiter)
    ensures var s := Registered().(waiter := w);
            Enabled(s, Decrement(0)) && Do(s, Decrement(0)) == Closing(w)
  {
    assert map[0 := Served][0 := MustNotify] == map[0 := MustNotify];
  }

  lemma ConnectionNotifies(w: Waiter)
    ensures Enabled(Closing(w), Notify(0))
    ensures Do(Closing(w), Notify(0))
         == Emptied(match w
                    case Registering(stale) => Registering(true)
                    case Waiting(polled, _, stale, heard) => Waiting(polled, true, stale, true)
                    case _ => w)
  {
    assert InState(Closing(w), MustNotify) == {0};
    assert map[0 := MustNotify][0 := Gone] == map[0 := Gone];
  }

  /** From a state in which the connection is active, it closes and notifies. */
  lemma CloseThen(w: Waiter, v: Waiter, rest: seq<Action>, t: System)
    requires Enabled(Closing(w), Notify(0)) && Do(Closing(w), Notify(0)) == Emptied(v)
    requires Leads(Emptied(v), rest, t)
    ensures Leads(Registered().(waiter := w), [Decrement(0)] + ([Notify(0)] + rest), t)
  {
    ConnectionCloses(w);
    hide Leads, Do, Enabled;
    First(Closing(w), Notify(0), rest, t);
    First(Registered().(waiter := w), Decrement(0), [Notify(0)] + rest, t);
  }

  lemma NobodyNotifies(w: Waiter)
    ensures InState(Emptied(w), MustNotify) == {}
  {
  }

  /** The last notification can be missed: the connection closes while the waiter is about to register. */
  lemma WaitCanMissTheNotification() returns (actions: seq<Action>, s: System)
    ensures Leads(Initial, actions, s) && s.waiter == Returned(false)
    ensures s.Active() == 0 && s.closed == s.accepted == 1 && InState(s, MustNotify) == {}
  {
    s := Emptied(Returned(false));
    NobodyNotifies(s.waiter);
    First(Emptied(Waiting(true, false, true, false)), Timeout, [], s);
    hide Leads, InState;
    First(Emptied(Waiting(false, false, true, false)), Wait, [Timeout], s);
    First(Emptied(Registering(true)), Wait, [Wait] + [Timeout], s);
    ConnectionNotifies(Registering(false));
    CloseThen(Registering(false), Registering(true), [Wait] + ([Wait] + [Timeout]), s);
    actions := FromRegistration([Decrement(0)] + ([Notify(0)] + ([Wait] + ([Wait] + [Timeout]))), s);
  }

  /** It can also come too late: the connection closes after the poll of the wait and before that of its
      timer. */
  lemma NotificationCanComeTooLate() returns (actions: seq<Action>, s: System)
    ensures Leads(Initial, actions, s) && s.waiter == Returned(false)
    ensures s.Active() == 0 && s.closed == s.accepted == 1 && InState(s, MustNotify) == {}
  {
    s := Emptied(Returned(false));
    NobodyNotifies(s.waiter);
    First(Emptied(Waiting(true, true, false, true)), Timeout, [], s);
    hide Leads, InState;
    var closing := [Decrement(0)] + ([Notify(0)] + [Timeout]);
    ConnectionNotifies(Waiting(true, false, false, false));
    CloseThen(Waiting(true, false, false, false), Waiting(true, true, false, true), [Timeout], s);
    PollAndClose(closing, s);
    actions := FromRegistration([Wait] + ([Wait] + closing), s);
  }

  lemma PollAndClose(closing: seq<Action>, s: System)
    requires Leads(Registered().(waiter := Waiting(true, false, false, false)), closing, s)
    ensures Leads(Registered(), [Wait] + ([Wait] + closing), s)
  {
    hide Leads, InState;
    First(Registered().(waiter := Waiting(false, false, false, false)), Wait, closing, s);
    First(Registered(), Wait, [Wait] + closing, s);
  }

  lemma FromRegistration(after: seq<Action>, s: System) returns (actions: seq<Action>)
    requires Leads(Registered(), after, s)
    ensures Leads(Initial, actions, s)
  {
    hide Leads, InState;
    var before := UpToRegistration();
    LeadsOn(Initial, before, Registered(), after, s);
    actions := before + after;
  }

  lemma {:induction false} LeadsOn(r: System, first: seq<Action>, s: System, second: seq<Action>, t: System)
    requires Leads(r, first, s) && Leads(s, second, t)
    ensures Leads(r, first + second, t)
    decreases |first|
  {
    if first == [] {
      assert first + second == second;
    } else {
      LeadsOn(Do(r, first[0]), first[1..], s, second, t);
      First(r, first[0], first[1..] + second, t);
      assert [first[0]] + (first[1..] + second) == first + second;
    }
  }

  lemma First(s: System, a: Action, rest: seq<Action>, t: System)
    requires Enabled(s, a) && Leads(Do(s, a), rest, t)
    ensures Leads(s, [a] + rest, t)
  {
    assert ([a] + rest)[1..] == rest;
  }
}
