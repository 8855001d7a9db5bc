/** The semaphore that bounds how many request bodies are buffered at once (`src/http/mod.rs`), and
    any number of requests that contend for it. */
module Permits {
  import opened Common

  /** `try_acquire`: whether there was a permit, and how many are left. */
  function TryAcquired(free: nat): (bool, nat) {
    (free > 0, if free > 0 then free - 1 else free)
  }

  /** A permit is dropped. */
  function Released(free: nat): nat {
    free + 1
  }

  class Semaphore {
    var available: nat

    constructor (permits: nat)
      ensures available == permits
    {
      available := permits;
    }

    method TryAcquire() returns (acquired: bool)
      modifies this
      ensures (acquired, available) == TryAcquired(old(available))
    {
      acquired := available > 0;
      if acquired {
        available := available - 1;
      }
    }

    method Release()
      modifies this
      ensures available == Released(old(available))
    {
      available := available + 1;
    }
  }

  type Id = nat

  /** Where a request is with respect to its permit. */
  datatype Stage =
    | Arrived     // before try_acquire
    | Refused     // answered 503
    | Buffering   // reading the body: the only stage at which the request awaits with a permit
    | Buffered    // about to return the permit, then to forward
    | Rejecting   // answering the error, then returning the permit
    | Forwarding
    | Finished
    | Abandoned   // dropped by the server because the client went away

  /** A request and how often it has taken and returned a permit. */
  datatype Request = Request(stage: Stage, taken: nat, returned: nat)

  datatype System = System(free: nat, requests: map<Id, Request>)

  predicate Holds(s: Stage) {
    s == Buffering || s == Buffered || s == Rejecting
  }

  function Holders(s: System): set<Id> {
    set i | i in s.requests && Holds(s.requests[i].stage)
  }

  datatype Action =
    | Arrive(id: Id)
    | TryAcquire(id: Id)
    | BodyEnds(id: Id, complete: bool)
    | Return(id: Id)
    | Finish(id: Id)
    | Abandon(id: Id)

  predicate Enabled(s: System, a: Action) {
    if a.Arrive? then a.id !in s.requests
    else
      && a.id in s.requests
      && var stage := s.requests[a.id].stage;
         match a
         case Arrive(_) => true
         case TryAcquire(_) => stage == Arrived
         case BodyEnds(_, _) => stage == Buffering
         case Return(_) => stage == Buffered || stage == Rejecting
         case Finish(_) => stage == Forwarding || stage == Refused
         case Abandon(_) => stage == Buffering || stage == Forwarding
  }

  function Update(s: System, id: Id, r: Request): System {
    s.(requests := s.requests[id := r])
  }

  function GiveBack(r: Request, stage: Stage): Request {
    Request(stage, r.taken, r.returned + 1)
  }

  function Do(s: System, a: Action): System
    requires Enabled(s, a)
  {
    match a
    case Arrive(id) => Update(s, id, Request(Arrived, 0, 0))
    case TryAcquire(id) =>
      var r := s.requests[id];
      if s.free > 0 then Update(s.(free := s.free - 1), id, Request(Buffering, r.taken + 1, r.returned))
      else Update(s, id, r.(stage := Refused))
    case BodyEnds(id, complete) => Update(s, id, s.requests[id].(stage := if complete then Buffered else Rejecting))
    case Return(id) =>
      var r := s.requests[id];
      Update(s.(free := s.free + 1), id, GiveBack(r, if r.stage == Buffered then Forwarding else Finished))
    case Finish(id) => Update(s, id, s.requests[id].(stage := Finished))
    case Abandon(id) =>
      var r := s.requests[id];
      if r.stage == Buffering then Update(s.(free := s.free + 1), id, GiveBack(r, Abandoned))
      else Update(s, id, r.(stage := Abandoned))
  }

  /** The steps use the permits as the semaphore hands them out and takes them back. */
  lemma StepsAreCalls(s: System, a: Action)
    requires Enabled(s, a)
    ensures var t := Do(s, a);
            match a
            case TryAcquire(id) => (t.requests[id].stage == Buffering, t.free) == TryAcquired(s.free)
            case Return(_) => t.free == Released(s.free)
            case Abandon(id) => t.free == if Holds(s.requests[id].stage) then Released(s.free) else s.free
            case _ => t.free == s.free
  {
  }

  predicate Leads(s: System, actions: seq<Action>, t: System)
    decreases |actions|
  {
    if actions == [] then s == t
    else Enabled(s, actions[0]) && Leads(Do(s, actions[0]), actions[1..], t)
  }

  ghost predicate RequestOk(r: Request) {
    && r.taken <= 1
    && r.taken == r.returned + (if Holds(r.stage) then 1 else 0)
    && (r.stage == Forwarding ==> r.taken == 1)
    && (r.stage == Arrived || r.stage == Refused ==> r.taken == 0)
  }

  ghost predicate Inv(s: System, permits: nat) {
    && s.free + |Holders(s)| == permits
    && forall i :: i in s.requests ==> RequestOk(s.requests[i])
  }

  /** The holders after one request has changed. */
  lemma HoldersAfter(s: System, id: Id, t: System)
    requires id in t.requests && t.requests == s.requests[id := t.requests[id]]
    ensures Holders(t) == if Holds(t.requests[id].stage) then Holders(s) + {id} else Holders(s) - {id}
    ensures id in Holders(s) <==> id in s.requests && Holds(s.requests[id].stage)
  {
  }

  lemma StepKeepsSum(s: System, a: Action)
    requires Enabled(s, a)
    requires a.id in s.requests ==> RequestOk(s.requests[a.id])
    ensures Do(s, a).free + |Holders(Do(s, a))| == s.free + |Holders(s)|
  {
    hide Holders;
    HoldersAfter(s, a.id, Do(s, a));
    SetSizes(Holders(s), a.id);
  }

  lemma StepKeepsInv(s: System, a: Action, permits: nat)
    requires Inv(s, permits) && Enabled(s, a)
    ensures Inv(Do(s, a), permits)
  {
    StepKeepsSum(s, a);
    hide Holders;
  }

  lemma {:induction false} RunKeepsInv(s: System, actions: seq<Action>, t: System, permits: nat)
    requires Inv(s, permits) && Leads(s, actions, t)
    ensures Inv(t, permits)
    decreases |actions|
  {
    if actions != [] {
      StepKeepsInv(s, actions[0], permits);
      RunKeepsInv(Do(s, actions[0]), actions[1..], t, permits);
    }
  }

  lemma Reachable(permits: nat, actions: seq<Action>, s: System)
    requires Leads(System(permits, map[]), actions, s)
    ensures Inv(s, permits)
  {
    hide Leads;
    var start := System(permits, map[]);
    assert Holders(start) == {};
    assert Inv(start, permits);
    RunKeepsInv(start, actions, s, permits);
  }

  /** Under every interleaving, free permits and holders add up to the configured number: so at most
      that many bodies are buffered at once, a request is refused exactly when all permits are held,
      and when nobody holds one all are free again. */
  lemma PermitsAreConserved(permits: nat, actions: seq<Action>, s: System)
    requires Leads(System(permits, map[]), actions, s)
    ensures s.free + |Holders(s)| == permits
    ensures forall i :: i in s.requests && s.requests[i].stage == Arrived ==>
              (Do(s, TryAcquire(i)).requests[i].stage == Refused <==> |Holders(s)| == permits)
    ensures (forall i :: i in s.requests ==> !Holds(s.requests[i].stage)) ==> s.free == permits
  {
    Reachable(permits, actions, s);
    hide Leads;
    if forall i :: i in s.requests ==> !Holds(s.requests[i].stage) {
      assert Holders(s) == {};
    }
  }

  /** Every request that is done with its body, on whatever path, has given back what it took, once. */
  lemma PermitsAreReturnedOnce(permits: nat, actions: seq<Action>, s: System, id: Id)
    requires Leads(System(permits, map[]), actions, s) && id in s.requests
    ensures var r := s.requests[id];
            && r.returned <= r.taken <= 1
            && (r.taken == r.returned <==> !Holds(r.stage))
            && (r.stage == Forwarding ==> r.returned == 1)
  {
    Reachable(permits, actions, s);
    hide Leads, Holders;
  }
}
