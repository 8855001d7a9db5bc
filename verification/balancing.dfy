/** The load balancer of `src/balancing/mod.rs`: one shared ticket counter per route. */
module Balancing {
  import opened Common
  import opened Configuration

  datatype Ticketing = Ticketing(strategy: Strategy, counter: nat)

  type TicketMap = map<string, Ticketing>

  datatype Request = Request(prefix: string, backends: seq<Url>)

  /** The position that a request gets, if any. */
  function Position(m: TicketMap, r: Request): Option<nat> {
    if r.backends == [] then None
    else if r.prefix in m && m[r.prefix].strategy == RoundRobin then Some(m[r.prefix].counter % |r.backends|)
    else Some(0)
  }

  function Serve(m: TicketMap, r: Request): TicketMap {
    if r.backends != [] && r.prefix in m && m[r.prefix].strategy == RoundRobin
    then m[r.prefix := m[r.prefix].(counter := Bump(m[r.prefix].counter))]
    else m
  }

  function ServeAll(m: TicketMap, requests: seq<Request>): TicketMap {
    if requests == [] then m else Serve(ServeAll(m, requests[..|requests| - 1]), requests[|requests| - 1])
  }

  class RouteBalancer {
    const strategy: Strategy
    var counter: nat

    constructor (strategy: Strategy)
      ensures this.strategy == strategy && counter == 0
    {
      this.strategy, counter := strategy, 0;
    }

    function View(): Ticketing
      reads this
    {
      Ticketing(strategy, counter)
    }

    method Select(backends: seq<Url>) returns (backend: Option<Url>)
      requires backends != []
      modifies this
      ensures strategy == RoundRobin ==>
                backend == Some(backends[old(counter) % |backends|]) && counter == Bump(old(counter))
      ensures strategy == FirstHealthy ==> backend == Some(backends[0]) && counter == old(counter)
    {
      match strategy {
        case RoundRobin =>
          var index := counter % |backends|;
          counter := Bump(counter);
          backend := Some(backends[index]);
        case FirstHealthy =>
          backend := Some(backends[0]);
      }
    }
  }

  class LoadBalancer {
    const routes: map<string, RouteBalancer>

    ghost predicate Valid() {
      forall p, q :: p in routes && q in routes && p != q ==> routes[p] != routes[q]
    }

    ghost function Objects(): set<RouteBalancer> {
      set p | p in routes :: routes[p]
    }

    ghost function View(): TicketMap
      reads Objects()
    {
      map p | p in routes :: routes[p].View()
    }

    /** Every configured prefix starts with ticket 0. With unique prefixes each route gets a counter
        of its own, with its own strategy. */
    constructor (configured: seq<RouteConfig>)
      ensures Valid() && fresh(Objects())
      ensures forall p :: p in routes <==> exists i :: 0 <= i < |configured| && configured[i].pathPrefix == p
      ensures UniquePrefixes(configured) ==>
                forall i :: 0 <= i < |configured| ==>
                  View()[configured[i].pathPrefix] == Ticketing(configured[i].balancing, 0)
    {
      var entries: map<string, RouteBalancer> := map[];
      for i := 0 to |configured|
        invariant forall p :: p in entries <==> exists k :: 0 <= k < i && configured[k].pathPrefix == p
        invariant forall p :: p in entries ==> fresh(entries[p])
        invariant forall p, q :: p in entries && q in entries && p != q ==> entries[p] != entries[q]
        invariant UniquePrefixes(configured) ==>
          forall k :: 0 <= k < i ==> entries[configured[k].pathPrefix].View() == Ticketing(configured[k].balancing, 0)
      {
        var balancer := new RouteBalancer(configured[i].balancing);
        entries := entries[configured[i].pathPrefix := balancer];
      }
      routes := entries;
    }

    method SelectBackend(prefix: string, backends: seq<Url>) returns (backend: Option<Url>)
      requires Valid()
      modifies Objects()
      ensures View() == Serve(old(View()), Request(prefix, backends))
      ensures var position := Position(old(View()), Request(prefix, backends));
              backend == if position.Some? then Some(backends[position.value]) else None
      ensures backend.None? <==> backends == []
      ensures backend.Some? ==> backend.value in backends
    {
      if backends == [] {
        return None;
      }
      if prefix in routes {
        backend := routes[prefix].Select(backends);
      } else {
        backend := Some(backends[0]);
      }
    }
  }

  // ---------------------------------------------------------------------------------------------
  // Residues
  // ---------------------------------------------------------------------------------------------

  lemma DivisionIsUnique(n: int, a: int, b: int, c: int, d: int)
    requires n > 0 && 0 <= b < n && 0 <= d < n && n * a + b == n * c + d
    ensures a == c && b == d
  {
    if a > c {
      assert n * (a - c) == n * a - n * c;
      AtLeastOnce(n, a - c);
    } else if a < c {
      assert n * (c - a) == n * c - n * a;
      AtLeastOnce(n, c - a);
    }
  }

  lemma AtLeastOnce(n: int, k: int)
    requires n > 0 && k > 0
    ensures n * k >= n
  {
  }

  lemma Remainder(n: int, q: int, r: int)
    requires n > 0 && 0 <= r < n
    ensures (n * q + r) / n == q && (n * q + r) % n == r
  {
    var x := n * q + r;
    DivisionIsUnique(n, x / n, x % n, q, r);
  }

  /** How far from `t` the next number with residue `i` is. */
  function Offset(t: nat, n: nat, i: nat): nat
    requires i < n
  {
    if t % n <= i then i - t % n else i + n - t % n
  }

  lemma ResidueAt(t: nat, n: nat, i: nat, k: nat)
    requires i < n && k < n
    ensures (t + k) % n == i <==> k == Offset(t, n, i)
  {
    var q, r := t / n, t % n;
    assert t == n * q + r;
    if r + k < n {
      Remainder(n, q, r + k);
    } else {
      assert t + k == n * (q + 1) + (r + k - n);
      Remainder(n, q + 1, r + k - n);
    }
  }

  // ---------------------------------------------------------------------------------------------
  // Counting tickets
  // ---------------------------------------------------------------------------------------------

  /** How many of the `m` tickets from `t` on, counted modulo 2^64, land on position `i` of `n`. */
  function Hits(t: nat, m: nat, n: nat, i: nat): nat
    requires i < n
  {
    if m == 0 then 0
    else Hits(t, m - 1, n, i) + if (t + m - 1) % TWO_64 % n == i then 1 else 0
  }

  /** The same without the wrap. */
  function PlainHits(t: nat, m: nat, n: nat, i: nat): nat
    requires i < n
  {
    if m == 0 then 0
    else PlainHits(t, m - 1, n, i) + if (t + m - 1) % n == i then 1 else 0
  }

  lemma {:induction false} OneRound(t: nat, m: nat, n: nat, i: nat)
    requires i < n && m <= n
    ensures PlainHits(t, m, n, i) == if m > Offset(t, n, i) then 1 else 0
  {
    if m > 0 {
      OneRound(t, m - 1, n, i);
      ResidueAt(t, n, i, m - 1);
    }
  }

  lemma {:induction false} HitsSplit(t: nat, a: nat, b: nat, n: nat, i: nat)
    requires i < n
    ensures PlainHits(t, a + b, n, i) == PlainHits(t, a, n, i) + PlainHits(t + a, b, n, i)
  {
    if b > 0 {
      HitsSplit(t, a, b - 1, n, i);
    }
  }

  predicate Fair(hits: nat, m: nat, n: nat)
    requires n > 0
  {
    m / n <= hits <= (m + n - 1) / n
  }

  lemma {:induction false} PlainIsFair(t: nat, m: nat, n: nat, i: nat)
    requires i < n
    ensures Fair(PlainHits(t, m, n, i), m, n)
    decreases m
  {
    if m < n {
      OneRound(t, m, n, i);
      Remainder(n, 0, m);
      if m > 0 {
        Remainder(n, 1, m - 1);
      } else {
        Remainder(n, 0, n - 1);
      }
    } else {
      HitsSplit(t, n, m - n, n, i);
      OneRound(t, n, n, i);
      PlainIsFair(t + n, m - n, n, i);
      RoundMore(m, n);
      RoundMore(m + n - 1, n);
    }
  }

  lemma RoundMore(m: nat, n: nat)
    requires n > 0 && m >= n
    ensures m / n == (m - n) / n + 1
  {
    var q, r := (m - n) / n, (m - n) % n;
    assert m == n * (q + 1) + r;
    Remainder(n, q + 1, r);
  }

  lemma {:induction false} NoWrapIsPlain(t: nat, m: nat, n: nat, i: nat)
    requires i < n
    requires t + m <= TWO_64 || TWO_64 % n == 0
    ensures Hits(t, m, n, i) == PlainHits(t, m, n, i)
  {
    if m > 0 {
      NoWrapIsPlain(t, m - 1, n, i);
      SameResidue(t + m - 1, n);
    }
  }

  lemma SameResidue(x: nat, n: nat)
    requires n > 0
    requires x < TWO_64 || TWO_64 % n == 0
    ensures x % TWO_64 % n == x % n
  {
    if x < TWO_64 {
      assert x % TWO_64 == x;
    } else {
      WrapKeepsResidue(x, n);
    }
  }

  lemma WrapKeepsResidue(x: nat, n: nat)
    requires n > 0 && TWO_64 % n == 0
    ensures x % TWO_64 % n == x % n
  {
    var y, w, c := x % TWO_64, x / TWO_64, TWO_64 / n;
    assert TWO_64 == n * c;
    calc {
      x;
      w * TWO_64 + y;
      w * (n * c) + y;
      n * (w * c) + y;
      n * (w * c + y / n) + y % n;
    }
    Remainder(n, w * c + y / n, y % n);
  }

  /** A window of `r + 1` tickets across the wrap picks the first position twice. */
  lemma WrapHitsTwice(n: nat)
    requires n > 0 && TWO_64 % n != 0
    ensures var r := TWO_64 % n; !Fair(Hits(TWO_64 - r, r + 1, n, 0), r + 1, n)
  {
    var r := TWO_64 % n;
    var t := TWO_64 - r;
    assert t == n * (TWO_64 / n) + 0;
    Remainder(n, TWO_64 / n, 0);
    assert Hits(t, 0, n, 0) == 0 && Hits(t, 1, n, 0) == 1;
    HitsGrow(t, 1, r, n, 0);
    Remainder(n, 0, 0);
    assert Hits(t, r + 1, n, 0) == Hits(t, r, n, 0) + 1 by {
      assert t + (r + 1) - 1 == TWO_64;
    }
    Remainder(n, 1, r);
  }

  lemma {:induction false} HitsGrow(t: nat, m: nat, l: nat, n: nat, i: nat)
    requires i < n && m <= l
    ensures Hits(t, m, n, i) <= Hits(t, l, n, i)
  {
    if m < l {
      HitsGrow(t, m, l - 1, n, i);
    }
  }

  lemma FairWhenDividing(t: nat, m: nat, n: nat, i: nat)
    requires i < n && TWO_64 % n == 0
    ensures Fair(Hits(t, m, n, i), m, n)
  {
    NoWrapIsPlain(t, m, n, i);
    PlainIsFair(t, m, n, i);
  }

  /** Any window of consecutive tickets is fair, wherever it starts and even across the wrap of the
      counter, exactly when the number of backends divides 2^64. */
  lemma FairAcrossWrap(n: nat)
    requires n > 0
    ensures (forall t: nat, m: nat, i: nat :: i < n ==> Fair(Hits(t, m, n, i), m, n)) <==> TWO_64 % n == 0
  {
    hide Fair, Hits;
    if TWO_64 % n == 0 {
      forall t: nat, m: nat, i: nat | i < n ensures Fair(Hits(t, m, n, i), m, n) {
        FairWhenDividing(t, m, n, i);
      }
    } else {
      WrapHitsTwice(n);
    }
  }

  // ---------------------------------------------------------------------------------------------
  // Fairness under interleaved requests
  // ---------------------------------------------------------------------------------------------

  /** The requests for one prefix that draw a ticket. */
  function Drawn(requests: seq<Request>, p: string): nat {
    if requests == [] then 0
    else
      var last := requests[|requests| - 1];
      Drawn(requests[..|requests| - 1], p) + if last.prefix == p && last.backends != [] then 1 else 0
  }

  /** How many of the requests for prefix `p` get position `i`. */
  function Picks(m: TicketMap, requests: seq<Request>, p: string, i: nat): nat {
    if requests == [] then 0
    else
      var front, last := requests[..|requests| - 1], requests[|requests| - 1];
      Picks(m, front, p, i)
      + if last.prefix == p && Position(ServeAll(m, front), last) == Some(i) then 1 else 0
  }

  /** A route's tickets are consecutive, whatever is asked for other prefixes in between. */
  lemma {:induction false} TicketsAreConsecutive(m: TicketMap, requests: seq<Request>, p: string)
    requires p in m && m[p].strategy == RoundRobin && m[p].counter < TWO_64
    ensures p in ServeAll(m, requests)
    ensures ServeAll(m, requests)[p] == Ticketing(RoundRobin, (m[p].counter + Drawn(requests, p)) % TWO_64)
  {
    if requests != [] {
      TicketsAreConsecutive(m, requests[..|requests| - 1], p);
    }
  }

  lemma {:induction false} PicksAreHits(m: TicketMap, requests: seq<Request>, p: string, n: nat, i: nat)
    requires p in m && m[p].strategy == RoundRobin && m[p].counter < TWO_64
    requires i < n && forall k :: 0 <= k < |requests| && requests[k].prefix == p ==> |requests[k].backends| == n
    ensures Picks(m, requests, p, i) == Hits(m[p].counter, Drawn(requests, p), n, i)
  {
    if requests != [] {
      var front := requests[..|requests| - 1];
      PicksAreHits(m, front, p, n, i);
      TicketsAreConsecutive(m, front, p);
    }
  }

  /** Round robin is fair under any interleaving of requests for any routes: among the requests for
      one route with `n` eligible backends, every position gets its share, rounded down or up, as long
      as the counter does not wrap. */
  lemma RoundRobinIsFair(m: TicketMap, requests: seq<Request>, p: string, n: nat, i: nat)
    requires p in m && m[p].strategy == RoundRobin
    requires m[p].counter + Drawn(requests, p) < TWO_64
    requires i < n && forall k :: 0 <= k < |requests| && requests[k].prefix == p ==> |requests[k].backends| == n
    ensures Fair(Picks(m, requests, p, i), Drawn(requests, p), n)
  {
    PicksAreHits(m, requests, p, n, i);
    NoWrapIsPlain(m[p].counter, Drawn(requests, p), n, i);
    PlainIsFair(m[p].counter, Drawn(requests, p), n, i);
  }
}
