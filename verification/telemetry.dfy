/** The in-memory metrics of `src/telemetry/mod.rs`. */
module Metrics {
  import opened Common
  import opened CircuitBreaker

  const MAX_TRANSITIONS := 32

  datatype HealthTransition = HealthTransition(backend: Url, change: Transition)

  /** What the request path counts. */
  datatype Counters = Counters(
    requests: nat,
    latencies: nat,
    latencyMicros: nat,
    statuses: map<nat, nat>,
    errors: map<string, nat>)

  /** One call of the request path on the metrics. */
  datatype Effect =
    | RequestSeen
    | UpstreamLatency(micros: nat)
    | ResponseStatus(status: nat)
    | ProxyError(kind: string)

  function Increment<K>(m: map<K, nat>, k: K): map<K, nat> {
    m[k := if k in m then m[k] + 1 else 1]
  }

  function Apply(c: Counters, e: Effect): Counters {
    match e
    case RequestSeen => c.(requests := c.requests + 1)
    case UpstreamLatency(micros) => c.(latencies := c.latencies + 1, latencyMicros := c.latencyMicros + micros)
    case ResponseStatus(status) => c.(statuses := Increment(c.statuses, status))
    case ProxyError(kind) => c.(errors := Increment(c.errors, kind))
  }

  function ApplyAll(c: Counters, effects: seq<Effect>): Counters {
    if effects == [] then c else Apply(ApplyAll(c, effects[..|effects| - 1]), effects[|effects| - 1])
  }

  lemma {:induction false} ApplySplits(c: Counters, first: seq<Effect>, second: seq<Effect>)
    ensures ApplyAll(c, first + second) == ApplyAll(ApplyAll(c, first), second)
  {
    if second == [] {
      assert first + second == first;
    } else {
      ApplySplits(c, first, second[..|second| - 1]);
      assert (first + second)[..|first + second| - 1] == first + second[..|second| - 1];
    }
  }

  // ---------------------------------------------------------------------------------------------
  // Sums over a counter map
  // ---------------------------------------------------------------------------------------------

  ghost function Total<K>(m: map<K, nat>): nat {
    if m == map[] then 0
    else
      var k :| k in m;
      m[k] + Total(m - {k})
  }

  lemma {:induction false} TotalWithout<K>(m: map<K, nat>, k: K)
    requires k in m
    ensures Total(m) == m[k] + Total(m - {k})
    decreases m
  {
    var j :| j in m && Total(m) == m[j] + Total(m - {j});
    if j != k {
      TotalWithout(m - {j}, k);
      TotalWithout(m - {k}, j);
      assert m - {j} - {k} == m - {k} - {j};
    }
  }

  /** A counter map grows by exactly one. */
  lemma IncrementAddsOne<K>(m: map<K, nat>, k: K)
    ensures Total(Increment(m, k)) == Total(m) + 1
  {
    TotalWithout(Increment(m, k), k);
    assert Increment(m, k) - {k} == m - {k};
    if k in m {
      TotalWithout(m, k);
    } else {
      assert m - {k} == m;
    }
  }

  // ---------------------------------------------------------------------------------------------
  // What each counter says
  // ---------------------------------------------------------------------------------------------

  function CountOf<K>(m: map<K, nat>, k: K): nat {
    if k in m then m[k] else 0
  }

  function Occurrences(effects: seq<Effect>, e: Effect): nat {
    multiset(effects)[e]
  }

  function Micros(effects: seq<Effect>): nat {
    if effects == [] then 0
    else
      var last := effects[|effects| - 1];
      Micros(effects[..|effects| - 1]) + if last.UpstreamLatency? then last.micros else 0
  }

  function Latencies(effects: seq<Effect>): nat {
    if effects == [] then 0
    else Latencies(effects[..|effects| - 1]) + if effects[|effects| - 1].UpstreamLatency? then 1 else 0
  }

  lemma ApplyCounts(c: Counters, e: Effect, status: nat, kind: string)
    ensures var after := Apply(c, e);
            && after.requests == c.requests + (if e == RequestSeen then 1 else 0)
            && CountOf(after.statuses, status) == CountOf(c.statuses, status) + (if e == ResponseStatus(status) then 1 else 0)
            && CountOf(after.errors, kind) == CountOf(c.errors, kind) + (if e == ProxyError(kind) then 1 else 0)
            && after.latencies == c.latencies + (if e.UpstreamLatency? then 1 else 0)
            && after.latencyMicros == c.latencyMicros + (if e.UpstreamLatency? then e.micros else 0)
  {
  }

  lemma OccurrencesGrow(effects: seq<Effect>, last: Effect, e: Effect)
    ensures Occurrences(effects + [last], e) == Occurrences(effects, e) + if last == e then 1 else 0
  {
  }

  /** Every counter counts its own calls, and no others: each status and each kind of error by itself, the
      requests, the latency samples, and the sum of the latencies. */
  lemma {:induction false} CountersCount(c: Counters, effects: seq<Effect>, status: nat, kind: string)
    ensures var after := ApplyAll(c, effects);
            && after.requests == c.requests + Occurrences(effects, RequestSeen)
            && CountOf(after.statuses, status) == CountOf(c.statuses, status) + Occurrences(effects, ResponseStatus(status))
            && CountOf(after.errors, kind) == CountOf(c.errors, kind) + Occurrences(effects, ProxyError(kind))
            && after.latencies == c.latencies + Latencies(effects)
            && after.latencyMicros == c.latencyMicros + Micros(effects)
  {
    if effects != [] {
      var front, last := effects[..|effects| - 1], effects[|effects| - 1];
      CountersCount(c, front, status, kind);
      ApplyCounts(ApplyAll(c, front), last, status, kind);
      hide Apply, CountOf, Occurrences;
      assert effects == front + [last];
      OccurrencesGrow(front, last, RequestSeen);
      OccurrencesGrow(front, last, ResponseStatus(status));
      OccurrencesGrow(front, last, ProxyError(kind));
    }
  }

  // ---------------------------------------------------------------------------------------------
  // The transition ring
  // ---------------------------------------------------------------------------------------------

  /** The last `n` elements, or all of them when there are fewer. */
  function LastOf<T>(n: nat, s: seq<T>): seq<T> {
    if |s| <= n then s else s[|s| - n..]
  }

  /** Dropping the oldest element of a full ring before adding one keeps the last elements. */
  lemma LastOfGrows<T>(n: nat, s: seq<T>, x: T)
    requires n > 0
    ensures var ring := LastOf(n, s);
            LastOf(n, s + [x]) == (if |ring| >= n then ring[1..] else ring) + [x]
    ensures |LastOf(n, s)| == Min(n, |s|)
  {
    var ring := LastOf(n, s);
    if |s| >= n {
      assert (s + [x])[|s| + 1 - n..] == s[|s| + 1 - n..] + [x];
      assert ring[1..] == s[|s| + 1 - n..];
    }
  }

  lemma LastThirtyTwo<T>(s: seq<T>, x: T)
    ensures LastOf(MAX_TRANSITIONS, s + [x]) == if |s| < 32 then s + [x] else (s + [x])[|s + [x]| - 32..]
  {
  }

  class Telemetry {
    var requestCount: nat
    var upstreamLatencyCount: nat
    var upstreamLatencyTotalMicros: nat
    var backendFailures: map<Url, nat>
    var healthTransitionsTotal: nat
    var responseStatuses: map<nat, nat>
    var proxyErrors: map<string, nat>
    var healthTransitions: seq<HealthTransition>
    /** Every transition ever recorded. */
    ghost var history: seq<HealthTransition>

    ghost predicate Valid()
      reads this
    {
      && healthTransitions == LastOf(MAX_TRANSITIONS, history)
      && healthTransitionsTotal == |history|
    }

    function Counted(): Counters
      reads this
    {
      Counters(requestCount, upstreamLatencyCount, upstreamLatencyTotalMicros, responseStatuses, proxyErrors)
    }

    constructor (pools: seq<seq<Url>>)
      ensures Valid() && history == []
      ensures Counted() == Counters(0, 0, 0, map[], map[])
      ensures forall b :: b in backendFailures <==> exists i :: 0 <= i < |pools| && b in pools[i]
      ensures forall b :: b in backendFailures ==> backendFailures[b] == 0
    {
      requestCount, upstreamLatencyCount, upstreamLatencyTotalMicros := 0, 0, 0;
      healthTransitionsTotal := 0;
      responseStatuses, proxyErrors, healthTransitions := map[], map[], [];
      history := [];
      var failures: map<Url, nat> := map[];
      for i := 0 to |pools|
        invariant forall b :: b in failures <==> exists j :: 0 <= j < i && b in pools[j]
        invariant forall b :: b in failures ==> failures[b] == 0
      {
        failures := failures + map b | b in pools[i] :: 0;
      }
      backendFailures := failures;
    }

    method RecordRequest()
      requires Valid()
      modifies this
      ensures Valid() && history == old(history) && backendFailures == old(backendFailures)
      ensures Counted() == Apply(old(Counted()), RequestSeen)
    {
      requestCount := requestCount + 1;
    }

    method RecordUpstreamLatency(micros: nat)
      requires Valid()
      modifies this
      ensures Valid() && history == old(history) && backendFailures == old(backendFailures)
      ensures Counted() == Apply(old(Counted()), UpstreamLatency(micros))
    {
      upstreamLatencyCount := upstreamLatencyCount + 1;
      upstreamLatencyTotalMicros := upstreamLatencyTotalMicros + micros;
    }

    method RecordResponseStatus(status: nat)
      requires Valid()
      modifies this
      ensures Valid() && history == old(history) && backendFailures == old(backendFailures)
      ensures Counted() == Apply(old(Counted()), ResponseStatus(status))
    {
      if status in responseStatuses {
        responseStatuses := responseStatuses[status := responseStatuses[status] + 1];
      } else {
        responseStatuses := responseStatuses[status := 1];
      }
    }

    method RecordProxyError(kind: string)
      requires Valid()
      modifies this
      ensures Valid() && history == old(history) && backendFailures == old(backendFailures)
      ensures Counted() == Apply(old(Counted()), ProxyError(kind))
    {
      if kind in proxyErrors {
        proxyErrors := proxyErrors[kind := proxyErrors[kind] + 1];
      } else {
        proxyErrors := proxyErrors[kind := 1];
      }
    }

    /** Counts a failure of a known backend; an unknown one is not counted. */
    method RecordBackendFailure(backend: Url)
      requires Valid()
      modifies this
      ensures Valid() && history == old(history) && Counted() == old(Counted())
      ensures backendFailures
           == if backend in old(backendFailures) then Increment(old(backendFailures), backend) else old(backendFailures)
    {
      if backend in backendFailures {
        backendFailures := backendFailures[backend := backendFailures[backend] + 1];
      }
    }

    /** The ring keeps the last 32 transitions, in the order in which they were recorded, and the
        total counts all of them. */
    method RecordHealthTransition(backend: Url, change: Transition)
      requires Valid()
      modifies this
      ensures Valid() && history == old(history) + [HealthTransition(backend, change)]
      ensures healthTransitions
           == if |old(history)| < 32 then history else history[|history| - 32..]
      ensures Counted() == old(Counted()) && backendFailures == old(backendFailures)
    {
      LastThirtyTwo(old(history), HealthTransition(backend, change));
      hide LastOf;
      LastOfGrows(MAX_TRANSITIONS, history, HealthTransition(backend, change));
      healthTransitionsTotal := healthTransitionsTotal + 1;
      if |healthTransitions| >= MAX_TRANSITIONS {
        healthTransitions := healthTransitions[1..];
      }
      healthTransitions := healthTransitions + [HealthTransition(backend, change)];
      history := history + [HealthTransition(backend, change)];
    }
  }

  // ---------------------------------------------------------------------------------------------
  // Label values
  // ---------------------------------------------------------------------------------------------

  /** `str::replace` of a one-character pattern. */
  function Replace(s: string, c: char, to: string): string {
    if s == "" then "" else (if s[0] == c then to else [s[0]]) + Replace(s[1..], c, to)
  }

  function EscapeLabelValue(s: string): string {
    Replace(Replace(s, '\\', "\\\\"), '"', "\\\"")
  }

  /** The escape that a reader of the format expects: one pass, one character at a time. */
  function EscapeOnce(s: string): string {
    if s == "" then ""
    else (if s[0] == '\\' then "\\\\" else if s[0] == '"' then "\\\"" else [s[0]]) + EscapeOnce(s[1..])
  }

  /** What a reader does with an escaped value. */
  function Unescape(s: string): string {
    if s == "" then ""
    else if s[0] == '\\' && |s| > 1 then [s[1]] + Unescape(s[2..])
    else [s[0]] + Unescape(s[1..])
  }

  lemma {:induction false} ReplaceSplits(s: string, t: string, c: char, to: string)
    ensures Replace(s + t, c, to) == Replace(s, c, to) + Replace(t, c, to)
  {
    if s == "" {
      assert s + t == t;
    } else {
      ReplaceSplits(s[1..], t, c, to);
      assert s + t == [s[0]] + (s[1..] + t);
      var head := if s[0] == c then to else [s[0]];
      assert Replace(s + t, c, to) == head + Replace(s[1..] + t, c, to);
    }
  }

  /** The two replacements in a row equal the single pass: the second finds no quote of its own
      making, and the backslashes it writes are not escaped again. */
  lemma {:induction false} TwoPassesAreOne(s: string)
    ensures EscapeLabelValue(s) == EscapeOnce(s)
  {
    if s != "" {
      TwoPassesAreOne(s[1..]);
      var head := if s[0] == '\\' then "\\\\" else [s[0]];
      ReplaceSplits(head, Replace(s[1..], '\\', "\\\\"), '"', "\\\"");
      if s[0] == '\\' {
        ReplaceSplits("\\", "\\", '"', "\\\"");
      }
    }
  }

  /** Unescaping gives every label value back. */
  lemma {:induction false} UnescapeInverts(s: string)
    ensures Unescape(EscapeLabelValue(s)) == s
  {
    TwoPassesAreOne(s);
    if s != "" {
      UnescapeInverts(s[1..]);
      TwoPassesAreOne(s[1..]);
      var e := EscapeOnce(s);
      if s[0] == '\\' || s[0] == '"' {
        assert e[2..] == EscapeOnce(s[1..]);
      } else {
        assert e[1..] == EscapeOnce(s[1..]);
      }
    }
  }
}
