# A verified model of ferrum-proxy

ferrum-proxy is a reverse proxy. For every request it matches a route, asks the health manager which of
the route's backends are eligible, picks one by a per-route ticket, rewrites the headers, forwards, judges
the reply, and retries elsewhere when that is allowed. Around this it buffers request bodies under a bounded
number of permits, limits bodies that stream through, runs active health checks, and drains its connections
on shutdown. This project models those decisions in Dafny 4.11 and proves what they promise, over all
inputs, all runs and, where threads meet, all interleavings.

`dafny verify dfyconfig.toml` checks everything. There is one file per component:

| file | component |
|---|---|
| `common.dfy`, `text.dfy` | shared vocabulary; splitting, trimming and decimal numbers |
| `config.dfy` | route configuration and the validation across routes |
| `breaker.dfy`, `pool.dfy` | the circuit breaker of one backend and of all, when calls take effect at once |
| `health.dfy` | the health manager as objects updated in place, proved to be that breaker |
| `health_threads.dfy` | the same methods with every atomic operation as a step of its own |
| `health_limits.dfy` | when the breaker's invariant survives threads, and when not |
| `startup.dfy` | active check passes and the search for dead pools |
| `balancing.dfy`, `routing.dfy` | ticket counters; longest prefix matching |
| `headers.dfy`, `bodies.dfy` | hop-by-hop and forwarding headers; body limits |
| `retry.dfy`, `retry_properties.dfy` | the retry engine as a function of its environment, and what it guarantees |
| `forwarding.dfy` | the retry engine on the shared health manager, balancer and metrics |
| `permits.dfy` | the semaphore for buffered bodies |
| `requests.dfy` | the branches of a request, and the books over many requests |
| `telemetry.dfy` | counters, the ring of health transitions, label escaping |
| `drain.dfy` | the connection tracker and the wait for the last connection |
| `calendar.dfy`, `run_names.dfy` | civil dates, and the benchmark result directories named after them |

State that the program updates in place is a class here (`BackendHealth`, `HealthManager`, `Telemetry`,
`RouteBalancer`, `LoadBalancer`, `HeaderMap`, `LimitedStream`, `Semaphore`, `ConnectionTracker`). The methods
of each are proved to do to its fields what a function says, and the theorems are about those functions: of
the breaker and the pool, of the counters, of the tickets, of the headers, of a body stream. The semaphore and
the tracker are shared by interleaved tasks; there the theorems are about runs of a system whose steps are
proved to be the functions of these two classes (`Permits.StepsAreCalls`, `Drain.AcceptIsOpen`,
`Drain.DecrementAndNotifyIsClose`).

What the environment decides is a parameter: replies and durations of upstreams, readings of the clock, events
of a body, and what other tasks record at the health manager and draw from the balancer meanwhile.

## Assumptions

Memory is sequentially consistent, locks are not poisoned, no task panics, and the clock never runs
backwards. Instants are natural numbers of nanoseconds. Times that are not modelled as parameters take none.

`Startup.RunStartupHealthCheck` describes the startup check by itself. In the program the first background
pass runs beside it (`src/server/mod.rs:44-47`, `src/health/mod.rs:262-265`), and its outcomes count too.
`Startup.DeadNeedsFailures` and `Startup.NeverDeadIff` say what holds then, for any outcomes and queries of
others at any time: with two passes at work no route is found dead if the threshold is at least three.

## Where the code differs from what one would expect

The model follows the code. In these places that contradicts a comment, a document or a natural guess; the
member in brackets proves what does happen.

- A comment speaks of a single probe request. Probing lasts until some outcome is recorded, and any number
  of requests may pass meanwhile (`CircuitBreaker.FirstOutcomeDecides`).
- A healthy backend may be ejected: recovery by threshold leaves the ejection window in place
  (`CircuitBreaker.RecoveryNeedsSuccesses`, `CircuitBreaker.SuccessesRecoverOnTime`).
- A failed probe does not make a backend unhealthy; it only ejects it (`CircuitBreaker.FirstOutcomeDecides`).
- Of the five clauses of the breaker's invariant four fail as soon as two threads call its methods: both
  counters can run at once, a healthy or an unhealthy backend can stand at its threshold, and a backend can be
  probed and ejected at once. Only "no backend is lost" holds for any number of threads
  (`HealthLimits.ClauseKeptIff`). Calls that do not overlap keep all five (`HealthLimits.SerialRunsKeepInv`).
- The startup check may find a route dead although the failure threshold is two, because the background pass
  records at the same time (`Startup.NeverDeadIff`).
- `wait_for_zero` can report a timeout although every connection has closed and notified: the last
  notification may fall between its test and its registration (`Drain.WaitCanMissTheNotification`), or between
  the poll of the wait and that of its timer (`Drain.NotificationCanComeTooLate`). `Drain.TimeoutMeans` shows
  that there is no third way.
- A permit covers the reading of a body, not its forwarding (`Requests.ForwardHoldsNothing`).
- The prefix `/` matches only `/` and paths that start with `//` (`Routing.RootIsNoCatchAll`).
- Only the first `Connection` value is looked at (`Headers.OnlyFirstConnectionCounts`), so that a header which
  only the second one lists is passed on (`Headers.SecondConnectionValuePasses`).
- A retry may be logged and then not started (`RetryProperties.RetryUnkeptIff`), under every policy that
  retries after a pause at all (`RetryProperties.KeepsItsWordIff`).
- Round robin is unfair around the wrap of its 64-bit counter unless the number of backends divides 2^64
  (`Balancing.FairAcrossWrap`).
- The byte counter of a limited stream wraps at 2^64 in a build without overflow checks
  (`Bodies.LimitHoldsBelowWrap`), so that streaming and buffering agree on all bodies only under limits of at
  most 2^63 bytes (`Bodies.AgreementIff`).
- The year of a date is cut to 32 bits (`Calendar.YearFits`, `Calendar.PartsAreExact`,
  `Calendar.PartsIncreaseIff`).

## Model

| member | source | states |
|---|---|---|
| CircuitBreaker.RunKeepsInv | src/health/mod.rs:135-237 | Every run keeps the invariant nobody wrote down: a healthy backend is below its failure threshold, an unhealthy one below its recovery threshold and ejected or probed, at most one counter runs, and probing excludes ejection. |
| CircuitBreaker.OfferedIffNotEjected | src/health/mod.rs:91-103 | In every reachable state a backend is offered if and only if its ejection deadline is absent or past, so the health test removes nothing. |
| CircuitBreaker.RefinesPhases | src/health/mod.rs:135-237 | Every run is a run of a five-state breaker; unhealthy without ejection or probe is unreachable. |
| CircuitBreaker.UnhealthyNeedsFailures | src/health/mod.rs:158-181 | A backend turns unhealthy only on a failure that ends at least `failure_threshold` failures without a success between, and is then ejected from that moment. |
| CircuitBreaker.FailuresTripOnTime | src/health/mod.rs:173-179 | The converse: a healthy breaker that is not probed, ejected or not, counts every failure while no success comes in, and trips on exactly the one that completes the threshold. |
| CircuitBreaker.RecoveryNeedsSuccesses | src/health/mod.rs:149-154 | Outside a probe a backend turns healthy only on a success that ends at least `recovery_threshold` successes without a failure between, and stays ejected. |
| CircuitBreaker.SuccessesRecoverOnTime | src/health/mod.rs:149-154 | The converse: while the ejection lasts and no failure comes in, whatever queries are made, the success that completes the threshold restores the flag, and no earlier one does. |
| CircuitBreaker.UnavailableNeedsFailures | src/health/mod.rs:158-237 | Nothing but `failure_threshold` failures ever makes a backend unhealthy, ejected or probed. |
| CircuitBreaker.FirstOutcomeDecides | src/health/mod.rs:139-171 | While probing every query offers the backend; the first outcome restores it completely, or ejects it again with its flag and its failure counter as they were. |
| CircuitBreaker.CountersCount | src/health/mod.rs:135-181 | The failure counter is the number of failures outside a probe since the last success or trip, the success counter that of successes since the last failure or recovery, modulo 2^64, in every reachable state. |
| CircuitBreaker.TripsExactly | src/health/mod.rs:166-179 | A healthy backend trips if and only if a failure outside a probe makes `failure_threshold` of them since the last success or trip, across any number of failed probes. |
| CircuitBreaker.RecoversExactly | src/health/mod.rs:139-154 | An unhealthy backend recovers if and only if a success ends a probe, or makes `recovery_threshold` of them since the last failure. |
| CircuitBreaker.ReportsSayWhatHappened | src/health/mod.rs:145-178 | A transition is reported if and only if an outcome ends a probe or changes the health flag, and its three strings say which of the four cases that was. |
| CircuitBreaker.DeadlineMoves | src/health/mod.rs:213-237 | With a monotone clock no step moves a deadline earlier; only a query that finds it past clears it. |
| CircuitBreaker.EjectionHolds | src/health/mod.rs:158-237 | From an ejection until its full duration is over the backend is never offered, whatever events come between. |
| Pool.BackendsAreIndependent | src/health/mod.rs:135-181 | In any run over all backends each one is where its own events alone take it. |
| Pool.AnswerIsAvailable | src/health/mod.rs:91-103 | The answer for a route, with its side effects on the way, is exactly the available part of the list, in order. |
| Pool.AnswerOnlyAvailable | src/health/mod.rs:91-103 | A backend is in that part if and only if it is listed and available at the reading its query takes. |
| Pool.ReachableInv | src/health/mod.rs:57-89 | From a fresh manager every run keeps the invariant of every backend. |
| Pool.EjectedIsNotAnswered | src/health/mod.rs:91-103 | Until its deadline no answer to any route names an ejected backend, whatever happens to it and to the others. |
| Health.BackendHealth.Succeed | src/health/mod.rs:135-156 | The method on the fields does what a success does to a breaker, and reports a passed probe or a recovery, and nothing else. |
| Health.BackendHealth.Fail | src/health/mod.rs:158-181 | The same for a failure, which reports a failed probe or a trip. |
| Health.HealthManager.constructor | src/health/mod.rs:57-89 | One fresh entry for each backend of any route, shared by the routes that name it. |
| Health.HealthManager.RecordSuccess | src/health/mod.rs:135-156 | Changes exactly one breaker, and records exactly the transition that it reports. |
| Health.HealthManager.RecordFailure | src/health/mod.rs:158-181 | The same for a failure, whose counter it also increments for known backends. |
| Health.HealthManager.IsBackendEjected | src/health/mod.rs:220-237 | Answers whether the deadline lies ahead, and turns a past one into a probe. |
| Health.HealthManager.HealthyBackends | src/health/mod.rs:91-103 | The loop over the list with its mutating queries returns exactly the available backends of the old state, in order. |
| Health.HealthManager.BackendStatuses | src/health/mod.rs:119-133 | The status report calls a backend healthy exactly when a request at that moment could be sent to it. |
| HealthThreads.AloneIsTheMethod | src/health/mod.rs:135-237 | The atomic steps of a method, taken without interference, are the method of the atomic model. |
| HealthThreads.LossIsBeingRepaired | src/health/mod.rs:135-181 | Under every interleaving of any number of threads, a backend that is neither healthy nor ejected nor probed has a committed thread that can move and whose step ends the loss or leads straight to the ejection. |
| HealthThreads.QuietMeansNotLost | src/health/mod.rs:213-237 | Whenever no thread is inside a method no backend is lost: a query answers with it exactly when its deadline is absent or past. |
| HealthThreads.UnhealthyNeedsARow | src/health/mod.rs:173-175 | Even interleaved, a thread marks a backend unhealthy only after counting a failure in a row of at least `failure_threshold` that no success had cleared. |
| HealthThreads.EjectionHolds | src/health/mod.rs:213-237 | Even interleaved, from the step that ejects until its deadline every query that takes the lock turns the backend away. |
| HealthLimits.SerialRunsKeepInv | src/health/mod.rs:135-237 | Every run of the atomic steps in which no call overlaps another keeps the whole invariant of the breaker whenever no thread is inside a method. |
| HealthLimits.ClauseKeptIff | src/health/mod.rs:135-237 | For each of the five clauses: n threads keep it in every state without a thread inside a method if and only if n is at most one, or the clause is that no backend is lost. |
| HealthLimits.BothCountersCanRun | src/health/mod.rs:137-149 | An interleaving of two threads after which both counters are positive and no thread is inside a method. |
| HealthLimits.HealthyCanBeAtThreshold | src/health/mod.rs:149-153 | An interleaving of two threads after which a healthy backend has as many failures as the threshold. |
| HealthLimits.UnhealthyCanBeAtThreshold | src/health/mod.rs:149-175 | An interleaving of two threads after which an unhealthy backend has as many successes as the threshold. |
| HealthLimits.ProbeCanBeEjected | src/health/mod.rs:173-177 | An interleaving of two threads after which a backend is probed and ejected at once. |
| Startup.UniqueBackendChecks | src/health/mod.rs:341-356 | Collects exactly the pairs of a backend and an endpoint on which some route has it checked. |
| Startup.OneCheckPerBackend | src/config/mod.rs:198-219 | A validated configuration checks no backend twice in a pass. |
| Startup.RunActiveCheckPass | src/health/mod.rs:283-304 | In whatever order the set yields the checks, a pass by itself records exactly one outcome for every configured backend. |
| Startup.StartupDeadPools | src/health/mod.rs:183-189 | Reports, in order, exactly the routes with no available backend, although its own queries may turn expired ejections into probes on the way. |
| Startup.PrefixesMean | src/health/mod.rs:183-189 | A prefix is reported if and only if it is that of a dead route. |
| Startup.PrefixesKeepOrder | src/health/mod.rs:183-189 | The reported prefixes are in the order of their routes. |
| Startup.AvailableAfterPass | src/health/mod.rs:158-237 | After one pass by itself over a fresh pool, and before any deadline, a backend is unavailable if and only if it failed and one failure is the threshold. |
| Startup.DeadMeansFailed | src/health/mod.rs:183-189 | So a route is dead if and only if the threshold is one and all its backends failed. |
| Startup.RunStartupHealthCheck | src/http/mod.rs:137-153 | The startup check on a fresh manager, if nobody else records meanwhile, reports exactly those routes, and none when the threshold is at least two. |
| Startup.DeadNeedsFailures | src/health/mod.rs:183-189 | Whatever other tasks record and query in between, a route is found dead only when each of its backends has had `failure_threshold` failures. |
| Startup.NeverDeadIff | src/server/mod.rs:44-47 | With at most n failures per backend, from whichever passes and requests, no route is ever found dead if and only if n is below the threshold. |
| Configuration.Validate | src/config/mod.rs:169-196 | Accepts exactly the configurations with routes, prefixes that start with a slash and are unique, backends, and one health endpoint per backend; a rejection names a fault that exists. |
| Configuration.ValidateEndpoints | src/config/mod.rs:198-219 | Accepts exactly when every backend has a single endpoint, and otherwise names two different ones of one backend. |
| Configuration.SingleEndpointsMeans | src/config/mod.rs:201-208 | That is: any two routes that share a backend check it on the same endpoint, where a route's own endpoint goes before the default one. |
| Balancing.LoadBalancer.constructor | src/balancing/mod.rs:16-31 | With unique prefixes every route has a counter of its own that starts at zero, with its own strategy. |
| Balancing.RouteBalancer.Select | src/balancing/mod.rs:46-54 | Round robin takes the ticket modulo the length and advances the counter; the other strategy takes the first and leaves it. |
| Balancing.LoadBalancer.SelectBackend | src/balancing/mod.rs:33-42 | Serves a request from the counter of its own route only, and finds a backend whenever there is one. |
| Balancing.TicketsAreConsecutive | src/balancing/mod.rs:46-50 | The tickets of a route are consecutive modulo 2^64, whatever is asked for other routes in between. |
| Balancing.RoundRobinIsFair | src/balancing/mod.rs:46-50 | Under any interleaving, every one of n positions gets its share of a route's requests, rounded down or up, until the counter wraps. |
| Balancing.FairAcrossWrap | src/balancing/mod.rs:49 | Every window of tickets, wherever it starts, is fair if and only if n divides 2^64. |
| Routing.MatchRoute | src/routing/mod.rs:3-11 | Finds a route exactly when one matches, and none that matches is longer. |
| Routing.MatchesBySegments | src/routing/mod.rs:6-9 | A prefix matches if and only if its segments are the first segments of the path. |
| Routing.MatchesFormChain | src/routing/mod.rs:6-10 | Of two matching prefixes the shorter is a segment-wise prefix of the longer. |
| Routing.LongestMatchIsUnique | src/routing/mod.rs:3-11 | With validated prefixes the route with the most matching segments is the one that is chosen. |
| Routing.LastLongestIsChosen | src/routing/mod.rs:10 | Without validation, of several longest matching routes the last one is chosen. |
| Routing.OrderDoesNotMatter | src/config/mod.rs:178-187 | With validated prefixes the choice is the same for every order of the routes. |
| Routing.RootIsNoCatchAll | src/routing/mod.rs:7-8 | The prefix `/` matches exactly `/` and paths that start with `//`. |
| Text.SplitGivesPieces | src/upstream/mod.rs:310 | The split's elements are exactly the maximal separator-free pieces. |
| Text.ParseInvertsDecimal | src/http/mod.rs:666 | A printed 64-bit length parses back to itself. |
| Text.ParsesExactly | src/http/mod.rs:802-803 | What parses as n is n as it is printed, with any zeros and at most one plus sign in front, if and only if n fits 64 bits. |
| Text.TrimIsInner | src/upstream/mod.rs:311 | Trimming takes away nothing but blanks, from the two ends. |
| Text.TrimTakesAll | src/upstream/mod.rs:311 | And it takes them all. |
| Text.LowerIsSmall | src/upstream/mod.rs:311 | Each capital letter becomes the small letter with its place in the alphabet; other characters stay. |
| Headers.NamesMean | src/upstream/mod.rs:312 | A header name has 1 to 65535 characters, which are the visible ones without the delimiters. |
| Headers.StripNamesAreListed | src/upstream/mod.rs:296-317 | The collected names are exactly the fixed hop-by-hop names and those that the first Connection value lists. |
| Headers.HeaderMap.SanitizeHopByHop | src/upstream/mod.rs:296-322 | Removes exactly those headers and keeps all others with their values in order, whatever order the set is walked in. |
| Headers.SanitizedIsUnique | src/upstream/mod.rs:319-321 | That determines the result, so the order of the removals cannot be seen. |
| Headers.SanitizingIsIdempotent | src/upstream/mod.rs:296-322 | Sanitising twice is sanitising once. |
| Headers.HeaderMap.ApplyForwarding | src/upstream/mod.rs:262-294 | Each of the four forwarding headers has exactly the value the proxy knows, or is absent; the others stay. |
| Headers.HeaderMap.Outgoing | src/upstream/mod.rs:138-142 | Both steps in the order in which a request takes them. |
| Headers.ClientCannotForge | src/upstream/mod.rs:138-142 | Two requests that differ only in Host, X-Forwarded-For, X-Forwarded-Proto and Forwarded are sent on with equal headers, each of these at most once. |
| Headers.BackendIsTold | src/upstream/mod.rs:262-294 | Host is exactly the backend's authority, X-Forwarded-For the client's address, X-Forwarded-Proto `http`, and Forwarded `for=` with the address, in quotes and brackets if it has a colon, and `proto=http`; each is there if and only if the proxy knows it and it can be written. |
| Headers.ForwardedIsRead | src/upstream/mod.rs:422-428 | A backend that reads Forwarded gets the client's address back, whatever it is. |
| Headers.EndToEndHeadersPass | src/upstream/mod.rs:138-142 | Every other header arrives, with its values in order, if and only if it is not hop-by-hop. |
| Headers.OnlyFirstConnectionCounts | src/upstream/mod.rs:308-317 | Whatever further Connection values there are, the same headers are removed. |
| Headers.SecondConnectionValuePasses | src/upstream/mod.rs:308-317 | A request with two Connection values whose second one lists a header that is passed on. |
| Headers.ContentLengthMeans | src/http/mod.rs:795-806 | A request is too long by declaration if and only if the first Content-Length value is a writing of a 64-bit number above the limit. |
| Headers.ReplayDeclaresItsLength | src/http/mod.rs:657-675 | A replay declares the length of its own body, so that the early length check rejects it exactly when the body is too long; replaying is idempotent and changes nothing else. |
| Bodies.BufferRequestBody | src/http/mod.rs:569-604 | The accumulating loop computes the buffering function and never exceeds the limit. |
| Bodies.LimitedStream.Next | src/upstream/mod.rs:345-367 | One event of the stream: its frame, the new count, and the notification of exactly the emitted error. |
| Bodies.StreamErrors | src/upstream/mod.rs:349-420 | Every frame is its chunk or an error, and each error has the name of its cause and of its direction. |
| Bodies.BufferAgreesWithStream | src/http/mod.rs:583-603 | Buffering yields the stream's payload exactly when the stream emits no error, and otherwise fails for the kind the stream notifies first, on every sequence whose count does not wrap before the limit is passed. |
| Bodies.AgreementIff | src/upstream/mod.rs:345-357 | That is every sequence of chunks, read errors and timeouts, of whatever total length, if and only if the configured limit is at most 2^63. |
| Bodies.BufferedBodyPasses | src/upstream/mod.rs:349-357 | A buffered body passes the second limit unchanged. |
| Bodies.DataWithinLimit | src/upstream/mod.rs:345-358 | The data of a stream stays within the limit, even what is emitted after errors. |
| Bodies.LimitHoldsBelowWrap | src/upstream/mod.rs:351-352 | Bodies of a given total length are held to every limit if and only if that length fits 64 bits. |
| Retry.BackoffDoubles | src/http/mod.rs:474-476 | Pauses start at the base, double ten times or until they saturate at 2^64-1, and never shrink. |
| Forwarding.SelectBackend | src/http/mod.rs:830-848 | Asks the health manager, leaves out what was attempted, and gives the balancer's choice among the rest, or none when there is none. |
| Retry.EligibleKeepsOrder | src/http/mod.rs:836-842 | Leaving out what was attempted keeps the order and the repetitions of the other backends. |
| Forwarding.ForwardRequest | src/http/mod.rs:518-566 | One exchange: one latency sample; a failure recorded for the backend when no response came, or one whose status the route lists or, if it lists none, the configured range contains, and a success otherwise; the response, 504 for a connect timeout and 502 for other errors, which are counted by name. |
| Forwarding.Attempt | src/http/mod.rs:399-485 | The body of the loop on the shared objects: answers, or goes on with a backend that was not tried before, and leaves the breakers and tickets as specified. |
| Forwarding.ForwardWithRetries | src/http/mod.rs:381-486 | The loop, with `attempt == attempted + 1` at its head, terminates and is the recursive specification on the answers and tickets that the shared objects give it: same status, metrics, breakers and tickets. |
| Forwarding.OutcomesAreTold | src/http/mod.rs:532-553 | Of all events that the loop's run leaves at the health manager, its own outcomes are exactly one for each forward, in order, about the backend that it used. |
| Requests.RequestIsTold | src/http/mod.rs:234-378 | The same for a request on each of its three ways: its outcomes at the health manager are exactly those of its log. |
| Forwarding.SentToAvailable | src/http/mod.rs:417-442 | Every backend that a request is sent to is known and has no ejection deadline ahead at the reading of its query, whatever other tasks have recorded by then. |
| Forwarding.NeverSentIntoEjection | src/http/mod.rs:830-848 | For any log of all events in the program, wherever the loop's queries fall in it, no request goes to a backend between its ejection and the deadline. |
| RetryProperties.NoBackendTwice | src/http/mod.rs:396-440 | No backend is tried twice; tries are bounded by the attempts and by the route's distinct backends, and each goes to a backend that was healthy then. |
| RetryProperties.ResultIsDictated | src/http/mod.rs:399-485 | Every reply but the last was retryable; the client gets the last reply, or 504 when the budget ran out before a forward, or 503 when every healthy backend had been tried; a retryable last reply is returned only when no further attempt fits. |
| RetryProperties.LoopAnswers | src/http/mod.rs:456-462 | The client gets the status that was counted last. |
| RetryProperties.LoopStaysInBudget | src/http/mod.rs:400-482 | No forward starts at or after the deadline, and the pauses together stay strictly below the budget. |
| RetryProperties.LoopEndsInTime | src/http/mod.rs:400-482 | If time passes only in forwards, each up to the connect timeout, and in pauses, the loop ends within the budget plus one connect timeout, or at once when entered later. |
| RetryProperties.LoopAccounts | src/http/mod.rs:456-485 | Responses are one more than retries started; every forward has one latency sample and, in order, one outcome for its backend, which is a success if and only if a response came whose status is not among the route's failures or, if it has none, outside the configured range. |
| RetryProperties.LoopPaces | src/http/mod.rs:472-484 | The loop sleeps, in all, the sum of min(backoff_ms * 2^min(k-1, 10), 2^64-1) milliseconds over the retries started, and each forward comes at least the k-th pause after the reply to the one before. |
| RetryProperties.LoopErrors | src/http/mod.rs:400-440 | The errors counted are those of the failed replies, by name and in order, and then the reason why the loop ended if that was no response; announced retries are numbered one by one. |
| RetryProperties.RetryUnkeptIff | src/http/mod.rs:456-481 | A retry is logged and not started if and only if the run ends with a retryable response, attempts remain, the budget was not over at the check, and there is a pause which no longer fits at the second reading of the clock. |
| RetryProperties.KeepsItsWordIff | src/http/mod.rs:464-481 | No environment can bring that about if and only if there is no backoff, no second attempt, no budget, or no status to retry on. |
| Permits.StepsAreCalls | src/http/mod.rs:235-265 | Each step of the interleaved requests uses the permits as the semaphore's calls do, and no other step touches them. |
| Permits.PermitsAreConserved | src/http/mod.rs:235-293 | Under every interleaving free permits and holders add up to `max_buffered_bodies`; a request is refused exactly when all are held. |
| Permits.PermitsAreReturnedOnce | src/http/mod.rs:300-358 | Success, rejection and a client that goes away all give back the permit exactly once, and before forwarding. |
| Requests.RequestBalances | src/http/mod.rs:156-379 | On every branch a request is counted once and answered once plus once per retry started, each forward has one sample and one outcome, and a permit taken is returned. |
| Requests.OnlyWholeRequestsAreForwarded | src/http/mod.rs:180-358 | A request reaches a backend only if it is not internal, does not declare too long a body and matches a route, and, for methods whose body is buffered, only if a permit was free and the whole body arrived within the limit. |
| Requests.NeverReplayed | src/http/mod.rs:850-863 | A request whose method is not GET, HEAD, OPTIONS or TRACE, nor PUT or DELETE when the operator has opted in, is sent to at most one backend, and no retry of it is announced. |
| Requests.GoesTwiceIff | src/http/mod.rs:381-486 | In some environment a request is sent to two backends if and only if its method is one of these, there is a second attempt, the route has two backends and a status to retry on, the body can be buffered, and the budget is longer than the first pause. |
| Requests.PermitTakenIff | src/http/mod.rs:235-378 | A permit is taken if and only if one is free and the request is one that may be sent again, or has a backend and a method other than GET, HEAD, OPTIONS and TRACE. |
| Requests.AnswerIsDictated | src/http/mod.rs:180-378 | The status that the client gets, for every way that a request can take. |
| Requests.ErrorsAreNamed | src/http/mod.rs:180-378 | The errors that are counted, by name, for every way that a request can take. |
| Requests.ForwardHoldsNothing | src/http/mod.rs:264-276 | No request holds a permit at the moment it is forwarded. |
| Requests.BufferUnderPermit | src/http/mod.rs:236-293 | Buffering leaves the permits as they were on every path, and answers 503 without a permit, 413 for too long a body, 408 for a timeout and 400 for a read error, each counted by name. |
| Requests.ForwardRouted | src/http/mod.rs:234-378 | The three ways of forwarding, on the shared objects, have exactly the metrics, the answer, the breakers and the tickets of the specification. |
| Requests.HandleRequest | src/http/mod.rs:156-379 | The same for the whole request; the answer is the response counted last, every permit is back, and a request without a route leaves breakers and tickets alone. |
| Requests.MergeConserves | src/http/mod.rs:156-379 | Interleaving requests loses no call and invents none. |
| Requests.MetricsShowCalls | src/telemetry/mod.rs:54-81 | The counters show the calls: requests, latency samples, and the sum over all response statuses. |
| Requests.BooksBalance | src/http/mod.rs:691-702 | After any number of completed requests in any interleaving, response counters sum up to requests plus retries started, and the latency count is the number of forwards and of health outcomes. |
| Metrics.Telemetry.RecordHealthTransition | src/telemetry/mod.rs:83-119 | The ring is the last 32, or all, of the transitions recorded so far, in order, and the total is their number. |
| Metrics.LastOfGrows | src/telemetry/mod.rs:115-118 | Dropping the oldest of a full ring before adding keeps the last elements. |
| Metrics.IncrementAddsOne | src/telemetry/mod.rs:70-81 | Counting one key adds exactly one to the sum over all keys. |
| Metrics.CountersCount | src/telemetry/mod.rs:54-81 | Every status, every kind of error, the requests and the latency samples are counted by their own calls alone, and the latencies add up. |
| Metrics.TwoPassesAreOne | src/telemetry/mod.rs:393-395 | The two replacements equal a single-pass escape. |
| Metrics.UnescapeInverts | src/telemetry/mod.rs:393-395 | Unescaping gives every label value back. |
| Drain.AcceptIsOpen | src/server/mod.rs:160-162 | Accepting a connection is one call of `open`. |
| Drain.DecrementAndNotifyIsClose | src/server/mod.rs:164-168 | The two halves of a close, without interference, are one call of `close`, and the second half comes exactly when the count has reached zero. |
| Drain.CountIsExact | src/server/mod.rs:55-97 | Under every interleaving the count is opened minus closed and never underflows, and the closes that took it to zero, and only they, have notified or are about to. |
| Drain.OneLastClose | src/server/mod.rs:98-106 | Once the shutdown has begun nothing opens, and exactly one close, the last, reaches zero. |
| Drain.DrainedMeansAllClosed | src/server/mod.rs:174-186 | The wait reports success only when every connection ever opened has closed. |
| Drain.OnlyTheTimerFails | src/server/mod.rs:174-186 | The wait fails only by its timer, and every test that finds no connection ends it with success. |
| Drain.TimeoutMeans | src/server/mod.rs:179-185 | At a timeout every connection has closed and notified if and only if the last notification came before the registration or after the poll of the wait. |
| Drain.MissedNotificationIsFinal | src/server/mod.rs:180-182 | A missed notification is never made up for: the wait cannot succeed any more. |
| Drain.WaitCanMissTheNotification | src/server/mod.rs:179-185 | A run in which the wait times out, although every connection has closed and notified, because the notification came before the registration. |
| Drain.NotificationCanComeTooLate | src/server/mod.rs:179-185 | The same because it came after the poll of the wait. |
| Calendar.CivilIsGregorian | src/bin/benchmark_runner.rs:325-337 | Day 0 is 1970-01-01, every day is a valid date, and day n+1 is the calendar's next date after day n, for all integers n (the proleptic Gregorian calendar, section 3.2.1 of ISO 8601:2004). |
| Calendar.CivilOfDays | src/bin/benchmark_runner.rs:325-337 | Converting the day count of a date gives the date back. |
| Calendar.DaysOfCivil | src/bin/benchmark_runner.rs:325-337 | Counting the days of a converted date gives the day number back. |
| Calendar.CivilKeepsOrder | src/bin/benchmark_runner.rs:325-337 | Later days have later dates. |
| Calendar.YearFits | src/bin/benchmark_runner.rs:336 | The 32-bit year is the calendar's year if and only if the day lies between the first days of the years -2^31 and 2^31. |
| Calendar.PartsAreExact | src/bin/benchmark_runner.rs:310-323 | The parts of a timestamp are valid and denote it if and only if it lies before the year 2^31. |
| Calendar.PartsIncreaseIff | src/bin/benchmark_runner.rs:310-323 | Later timestamps have lexicographically later parts if and only if all lie before the year 2^31. |
| RunNames.PaddedOrder | src/bin/benchmark_runner.rs:295-298 | Within their width padded numbers have that width and sort as numbers. |
| RunNames.FirstName | src/bin/benchmark_runner.rs:295-298 | A run at the start of the Unix epoch is named `19700101-000000`. |
| RunNames.NamesSortByTime | src/bin/benchmark_runner.rs:284-299 | Result directories sort by time if and only if all runs start before the year 10000. |
| RunNames.NamesAreDistinct | src/bin/benchmark_runner.rs:284-299 | Runs that start in different seconds have different directories, exactly until the 32-bit year comes round to 1970 again. |

## Left out

- Sockets, HTTP connections, TLS, and parsing and building of URLs and URIs: foreign library behaviour; a forward is an arbitrary reply after an arbitrary time.
- Configuration.Validate: YAML loading and the range and URL checks on single fields and sections are left out, because they would only add single-branch members; the checks on prefixes, backends and health endpoints are kept in their order.
- Log lines, the Prometheus text, request identifiers, internal endpoints and their bearer check: an internal endpoint is an arbitrary status.
- Orchestration of the benchmarks and the benchmark backend: processes, ports and files.
- Weak memory orderings: sequential consistency is assumed.
- Startup.RunActiveCheckPass: a pass by itself; outcomes that others record between its checks are covered by `Startup.NeverDeadIff` and by the pool's theorems.
- Startup.RunStartupHealthCheck: the check by itself, see "Assumptions".
- Bodies.BufferRequestBody: a vector of more than 2^63-1 bytes cannot be allocated; the model's buffer can be as long as the limit allows.
- Metrics.Telemetry.RecordRequest: counters are unbounded, so their wrap at 2^64 is not modelled.
- Health.HealthManager.BackendStatuses: returns a map, so the sorting of the report by name is not modelled.
- Health.HealthManager.RecordFailure: the error of a response body that fails after the response was returned is one more call of this method; such late calls are covered by the health theorems, which allow any calls, but not by the books of a request.
- Requests.HandleRequest: error counts that the hook on a streamed request body adds while it is forwarded are not part of the request's log.
- Headers.HeaderMap.SanitizeHopByHop: the order between different header names is not modelled, only that of the values of one name; trimming knows blanks and tabs, the only white space that a readable header value can hold.
- Metrics.TwoPassesAreOne: newlines are not escaped by the code, and conformance to the Prometheus format is not claimed.
- RetryProperties.LoopEndsInTime: scheduling delays and clock readings between the steps of the loop take no time here; the other results about the loop allow any.
- Drain.WaitCanMissTheNotification: the wait itself is a state machine and not a method, because it suspends between its steps.
- HealthThreads.LossIsBeingRepaired: safety only; that a thread which can move eventually does is left to the scheduler.
- Texts of error responses.
