# ModelGate, verified

ModelGate is a gateway in front of LLM providers. Its hard logic is a handful of small
stateful policies: a router that schedules targets by weight, a token bucket per client, a
circuit breaker and a semaphore per provider, a retry loop, a stream codec, and a `Chat`
protocol that shares an idempotency store and a cache between concurrent callers. Each policy
promises something about whole runs. This project models those policies in Dafny and proves
the promises.

| file | part of the gateway |
|---|---|
| `WeightedRoundRobin.dfy`, `RoundRobin.dfy` | the two scheduling games, over arbitrary runs |
| `Router.dfy` | the router object, its locked selection and the routing loop |
| `TokenBucket.dfy`, `BucketClock.dfy` | the rate limiter's script, key expiry, the Retry-After header, and what any clock does to them |
| `BreakerSpec.dfy`, `CircuitBreaker.dfy` | the breaker a reader would want, and the breaker as built (ring buffer, generations, one-shot permits), proved to behave alike |
| `Retry.dfy` | the attempt loop and its backoff ceilings |
| `Governance.dfy`, `GovernedStream.dfy` | slots, permits and contexts over interleaved calls and streams |
| `SseText.dfy`, `SseEvents.dfy`, `Sse.dfy` | the event-stream parser and printer |
| `Keys.dfy`, `SampleCodec.dfy`, `Idempotency.dfy` | names in the shared store, a codec that meets what is asked of one, and the three idempotency scripts |
| `Gateway.dfy`, `GatewaySafety.dfy`, `GatewayExpiry.dfy`, `GatewayLifetime.dfy`, `GatewayAnswers.dfy`, `GatewayPaths.dfy`, `GatewayProvenance.dfy`, `GatewayMetering.dfy` | concurrent `Chat` calls and client streams as interleaved atomic steps, and what every run of them keeps |
| `MeteredStream.dfy` | the metering wrapper around a client's stream |
| `Results.dfy`, `Text.dfy`, `Arithmetic.dfy` | option and result types, text operations, powers and products |

How the models are built:

- Objects whose fields are updated in place (router, breaker, permits, semaphore, buckets,
  streams, store) are classes. Each method's contract gives the new state as a function of the
  old one, and the lemmas are about that function.
- Concurrency is interleaving. A mutex section, a store script, a provider call or a usage
  record is one atomic step, and a run is any sequence of enabled steps. A store operation may
  be applied and reported, applied but reported as failed, or not applied.
- Clock readings, jitter, availability, provider results and the scheduler state left by other
  requests are parameters, so every theorem ranges over all of them.
- `sync.Once` is a flag. Tokens and failure ratios are reals. SHA-256 is a function without
  collisions; JSON is a codec that loses nothing and whose text holds no NUL (`Keys.CodecOk`, met by
  the codec of `SampleCodec.SampleIsOk`). Floating-point request fields are 64-bit values.

Three promises hold only under a condition, and the model says exactly which:

- The token bucket bounds what one instant admits exactly when the clock never goes back
  (`BucketClock.ClockToleranceIsExact`): the script stores the current time even when it is
  earlier than the stored one, so a clock that may lose one millisecond at a time breaks every
  limit. What any clock gets is still exact: the windows of the clock that adds up only the
  forward steps (`BucketClock.AnyClockIsExact`).
- A client's idempotency key is served by the provider at most once, and answered with one body,
  as long as its record expires only while no call under it owns it or has succeeded under it; and
  any other expiry leaves a continuation that breaks this
  (`GatewayExpiry.MayExpireExactlyWhenUnclaimed`): a record names its request but not its owner.
  In terms of the clock: if every owner settles before its reservation's time to live has passed
  and its completion reaches the store, this holds until the result's time to live has passed
  since the completion (`GatewayLifetime.ServedOnceWhileResultLives`). The configuration does not
  enforce the first condition: it lets the request timeout and the reservation's lifetime be set
  independently, gives both 30 seconds by default (`internal/config/config.go:85`,
  `internal/config/config.go:154`), and storing the completion has a timeout of its own on top
  (`internal/service/gateway.go:406`).
- The backoff ceiling is the capped exponential except when the exponential falls exactly one
  below the cap (`Retry.CeilingIsCappedExponential`): the overflow guard halves with integer division.

Two smaller points where the code is followed: JSON drops the provider's name from a stored
response, so "the same body" means the JSON body; and the stream parser treats end of input
as the end of the stream whether or not the terminator was seen.

## Model

| member | source | states |
|---|---|---|
| WeightedRoundRobin.SumAfter | internal/routing/router.go:145-163 | what one weighted selection does to the sum of current weights over any set of targets: it gains the set's eligible weight and loses the whole eligible weight if the winner is in the set |
| WeightedRoundRobin.TotalAfter | internal/routing/router.go:145-163 | a selection conserves the sum of all current weights |
| WeightedRoundRobin.WinnerUnique | internal/routing/router.go:148-161 | there is one winner: the first of the largest eligible entries |
| WeightedRoundRobin.WinnerPaysFromSurplus | internal/routing/router.go:145-163 | the averaging step: the winner can afford what it pays, measured over any set that contains it and misses an eligible rival |
| WeightedRoundRobin.CallKeepsBalance | internal/routing/router.go:145-163 | every selection keeps the subset invariant, whatever was eligible |
| WeightedRoundRobin.RunKeepsBalance | internal/routing/router.go:145-163 | so does every run of selections with arbitrary eligibility at each one |
| WeightedRoundRobin.SubsetFairness | internal/routing/router.go:145-163 | in every run of a fresh router the current weights sum to zero, and over any l of n targets the sum stays within W*l*(n-l) of zero |
| WeightedRoundRobin.EntryBound | internal/routing/router.go:145-163 | no current weight ever leaves plus or minus (n-1)*W |
| WeightedRoundRobin.EntryIsEarnedLessServed | internal/routing/router.go:145-163 | a current weight is the credit earned while eligible less the weight served when chosen |
| WeightedRoundRobin.ServiceFairness | internal/routing/router.go:145-163 | served share and earned credit never differ by more than (n-1)*W, however targets come and go |
| WeightedRoundRobin.NoOverflow | internal/routing/router.go:145-163 | if n*W fits a 64-bit integer then no value computed by any selection of any run overflows |
| WeightedRoundRobin.NoStarvation | internal/routing/router.go:145-163 | in any stretch of any run a target eligible more than 2(n-1)W/weight times is chosen |
| WeightedRoundRobin.FullRunEntries | internal/routing/router.go:145-163 | with everyone eligible, a current weight is calls*weight - W*wins and stays above -W |
| WeightedRoundRobin.WholeCycles | internal/routing/router.go:145-163 | k*W selections choose target i exactly k*weight(i) times and bring every current weight back to zero |
| WeightedRoundRobin.ExactCycle | internal/routing/router.go:145-163 | ANY W consecutive selections choose each target exactly its weight in times, and the schedule repeats every W selections |
| RoundRobin.FairRound | internal/routing/router.go:135-144 | from any cursor, as many selections as there are eligible targets return each of them exactly once, in cyclic order |
| RoundRobin.ScheduleIsAhead | internal/routing/router.go:135-144 | repeated selections visit exactly the eligible targets the cursor meets going round |
| Router.New | internal/routing/router.go:48-75 | a router is built if and only if the strategy is one of the two names and the targets are present, named apart after trimming, and positively weighted; each name gives its own strategy, and the router starts from zero weights and cursor zero |
| Router.Router.SelectRoundRobin | internal/routing/router.go:135-144 | returns the first eligible target at or after the cursor and moves just past it; none exactly when none is eligible, and then the cursor is where it started |
| Router.Router.constructor | internal/routing/router.go:48-75 | a new router is balanced, and every selection keeps it so: the fairness bounds hold of the object |
| Router.Router.CreditAll | internal/routing/router.go:146-160 | the loop credits exactly the eligible targets, adds up their weights, and finds the first of the largest |
| Router.Router.SelectWeighted | internal/routing/router.go:145-163 | one legal move of the weighted game, which keeps the router balanced: right winner, right new vector; nothing changes when none is eligible |
| Router.Router.SelectTarget | internal/routing/router.go:130-165 | both strategies with the whole new scheduler state; a target is returned exactly when one is eligible |
| Router.Router.Pass | internal/routing/router.go:79-88 | one pass tries the scheduler's own choice among the available targets no earlier pass tried, whatever other requests did to the scheduler in between |
| Router.Router.Turn | internal/routing/router.go:79-101 | one turn of the loop: nobody is left, or a target turned the request away and is excluded, or it answered |
| Router.Router.Route | internal/routing/router.go:77-128 | the loop ends; no target is tried twice, and each is the scheduler's choice; every target but the last refused, or failed with an error that imitates a refusal; a refusal left the raw provider uncalled, so without imitations only the last target can have been invoked; what is relayed is never a refusal; if everyone is available and the first k rounds are refused, the reply of round k, if no refusal, is relayed; otherwise every target was tried or found unavailable |
| Router.GovernedSpending | internal/governance/provider.go:57-67 | whichever run of a governed provider a refusal comes from, the raw provider was not called |
| TokenBucket.StoredBucket.Allow | internal/ratelimit/redis.go:12-37 | the script with its key expiry computes the specified decision and stored hash, and keeps tokens within 0 and capacity at any clock reading |
| TokenBucket.LevelIsLeast | internal/ratelimit/redis.go:18-34 | the lazily refilled level is the least room left in any window of the past: below all of them and equal to one |
| TokenBucket.AdmitsExactlyWhatFits | internal/ratelimit/redis.go:18-34 | under a non-decreasing clock a request is admitted if and only if, for every earlier call, admissions since then plus one stay within capacity + rate * time since then |
| TokenBucket.BucketConforms | internal/ratelimit/redis.go:18-34 | all decisions of any run respect every window |
| TokenBucket.BucketIsOptimal | internal/ratelimit/redis.go:18-34 | on every prefix of every run the bucket admits at least as many requests as any other admitter that respects every window |
| TokenBucket.LevelInRange | internal/ratelimit/redis.go:18-25 | tokens stay within 0 and capacity even when the clock goes back |
| TokenBucket.RefillTwice | internal/ratelimit/redis.go:18-22 | refilling in two steps is refilling once |
| TokenBucket.ExpiredMeansFull | internal/ratelimit/redis.go:33-35 | once the key's time to live has passed, the bucket it held would be full |
| TokenBucket.RefusalIsUnseen | internal/ratelimit/redis.go:24-33 | a refused call leaves a bucket no later call can tell from the one before it |
| TokenBucket.DroppingIsUnseen | internal/ratelimit/redis.go:33-35 | a call cannot tell an expired key from one kept for ever |
| TokenBucket.Unobservable | internal/ratelimit/redis.go:18-35 | taking away any refused calls and all key expiries changes no other decision of any run |
| TokenBucket.RetryAfterIsExact | internal/ratelimit/redis.go:26-31 | after a refusal, however often the client polls too early, a call is admitted if and only if the announced milliseconds have passed |
| TokenBucket.RemainingIsExact | internal/ratelimit/redis.go:24-36 | after a call that reports `remaining`, a call that follows n more at the same instant is admitted if and only if n is less; and a call is told to wait if and only if it is refused |
| TokenBucket.TtlIsLeast | internal/ratelimit/redis.go:34-35 | the key lives for the least time that is at least a second and at least twice what filling the bucket takes |
| TokenBucket.HeaderCoversWait | internal/api/handler.go:153-156 | the Retry-After header (section 10.2.3 of RFC 9110) is the least positive number of whole seconds that covers the announced wait |
| BucketClock.ExpiringKeyDecidesAlike | internal/ratelimit/redis.go:18-35 | in any run whose key is dropped only after its time to live, calls are decided as by the windows of their times, so exactness and optimality hold of the expiring key |
| BucketClock.OnlyForwardStepsCount | internal/ratelimit/redis.go:21-33 | under any clock the decisions are those under the clock that adds up its forward steps |
| BucketClock.ForwardIsRealPlusLost | internal/ratelimit/redis.go:21-33 | that clock runs ahead of the real one by exactly the time the real one has lost |
| BucketClock.AnyClockIsExact | internal/ratelimit/redis.go:18-34 | under any clock a request is admitted if and only if it fits every window of the forward clock |
| BucketClock.AnyClockIsOptimal | internal/ratelimit/redis.go:18-34 | under any clock the bucket respects every window of the forward clock, and no admitter that does is ever ahead of it |
| BucketClock.AdmittedAtIsDecisions | internal/ratelimit/redis.go:18-34 | what an instant admits is what the run's decisions admit at it |
| BucketClock.InstantIsBounded | internal/ratelimit/redis.go:18-34 | while the clock does not go back, an instant admits no more than the level it would find |
| BucketClock.Creep | internal/ratelimit/redis.go:21-33 | a bucket below one token whose clock keeps losing d milliseconds, for any d, admits a request at the same instant all the same |
| BucketClock.ClockToleranceIsExact | internal/ratelimit/redis.go:21-33 | for every limit: all runs of a clock that steps back by at most d keep each instant within capacity if and only if d is zero |
| BucketClock.ClockStepBackOverAdmits | internal/ratelimit/redis.go:21-33 | a concrete clock step that admits two requests in a window that allows one |
| BreakerSpec.GrowRing | internal/circuitbreaker/breaker.go:220-227 | appending to a window that is not yet full keeps it the last outcomes of the history, with the right failure count |
| BreakerSpec.TurnRing | internal/circuitbreaker/breaker.go:228-235 | overwriting the oldest slot of a full ring and moving `next` keeps it the last WindowSize outcomes, with the right failure count |
| BreakerSpec.TripsAgree | internal/circuitbreaker/breaker.go:168-169 | the ring buffer and its counter satisfy the trip condition exactly when the list of outcomes does |
| BreakerSpec.RunInvariant | internal/circuitbreaker/breaker.go:99-236 | in every run: probes in flight never exceed their limit, HALF_OPEN has seen no failure and too few successes, OPEN has no live permit, and a resting CLOSED breaker never satisfies the trip condition |
| BreakerSpec.TripsExactlyAtRatio | internal/circuitbreaker/breaker.go:168-169 | the trip condition from positions alone: enough of the last min(length, window) outcomes, and a share of failures among them that has reached the ratio |
| BreakerSpec.OpenLastsExactlyItsTimeout | internal/circuitbreaker/breaker.go:197-203 | from any reachable OPEN state, whatever is asked, observed or reported before the timeout changes nothing and is granted nothing; the first request at or after it gets the only live permit of a HALF_OPEN breaker |
| BreakerSpec.ClosedGrantsAll | internal/circuitbreaker/breaker.go:99-121 | CLOSED grants every request, and opens on, and only on, a live permit's report that trips the window, counting its timeout from that report |
| BreakerSpec.HalfOpenOpensOnFailure | internal/circuitbreaker/breaker.go:174-181 | HALF_OPEN opens on, and only on, a live permit's failure, counting its timeout from there |
| BreakerSpec.ProbesAreRationed | internal/circuitbreaker/breaker.go:102-113 | however many requests HALF_OPEN gets, it grants just as many as bring the probes in flight to their limit |
| BreakerSpec.ClosesAfterExactlyEnoughSuccesses | internal/circuitbreaker/breaker.go:174-188 | in every run HALF_OPEN closes if and only if a live permit reports the HalfOpenMaxRequests-th success of a probing phase without a failure |
| BreakerSpec.SpentPermitsStaySpent | internal/circuitbreaker/breaker.go:147-161 | a permit that was used, or issued before a change of state, never changes anything again, whatever happens meanwhile |
| CircuitBreaker.New | internal/circuitbreaker/breaker.go:74-97 | a breaker is built from acceptable options and from no others |
| CircuitBreaker.Breaker.constructor | internal/circuitbreaker/breaker.go:74-97 | a new breaker stands for the fresh specification, and keeps from then on what every run keeps: probes within their limit, no tripped CLOSED state |
| CircuitBreaker.Breaker.Transition | internal/circuitbreaker/breaker.go:205-218 | a change of state voids every outstanding permit by its generation alone, and forgets the window only on closing |
| CircuitBreaker.Breaker.AdvanceLocked | internal/circuitbreaker/breaker.go:197-203 | refines the specified timed step, whose timing BreakerSpec.OpenLastsExactlyItsTimeout states |
| CircuitBreaker.Breaker.Issue | internal/circuitbreaker/breaker.go:111-120 | a permit is handed out and counted exactly while HALF_OPEN |
| CircuitBreaker.Breaker.Allow | internal/circuitbreaker/breaker.go:99-121 | refines the specification's grant: a permit exactly when one is due, numbered next, counted while it is unused and of this generation |
| CircuitBreaker.Breaker.ReadState | internal/circuitbreaker/breaker.go:123-132 | reading the state performs the timed transition and no other change |
| CircuitBreaker.Breaker.Available | internal/circuitbreaker/breaker.go:134-145 | true exactly when the next request would be admitted, after the timed transition |
| CircuitBreaker.Breaker.Record | internal/circuitbreaker/breaker.go:220-236 | the ring buffer represents the history with the new outcome added |
| CircuitBreaker.Breaker.CompleteClosed | internal/circuitbreaker/breaker.go:165-173 | a live permit's report to a CLOSED breaker is the specified one: the window grows unless ignored, and trips when it should |
| CircuitBreaker.Breaker.CompleteHalfOpen | internal/circuitbreaker/breaker.go:174-188 | a probe's report is the specified one: reopen on failure, close on enough successes, else only free the probe |
| CircuitBreaker.Breaker.Complete | internal/circuitbreaker/breaker.go:156-195 | refines the specification's report, which knows no generation, ring or counter; a stale permit changes nothing |
| CircuitBreaker.Permit.Done | internal/circuitbreaker/breaker.go:147-154 | a permit reports at most once: any later report leaves the breaker unchanged |
| Retry.Backoff | internal/retry/retry.go:119-131 | the doubling loop computes the closed-form ceiling and never exceeds the cap on the way |
| Retry.CeilingMonotone | internal/retry/retry.go:119-131 | ceilings never shrink with the attempt number and never exceed the cap |
| Retry.CeilingIsCappedExponential | internal/retry/retry.go:119-131 | the ceiling equals min(cap, base*2^(k-1)) if and only if that power is not cap-1 with k at least 2; always so for an even cap; otherwise it differs by one |
| Retry.CeilingCanBeRoundedUp | internal/retry/retry.go:119-131 | base 1, cap 3, attempt 2: the ceiling is 3 where the capped exponential is 2 |
| Retry.Loop | internal/retry/retry.go:70-117 | where the loop stops and with what: at the first attempt that does not go on, with the context's error, nothing, or the attempt's own error, each in its case; the k-th wait is drawn below the ceiling of the k-th attempt |
| Retry.Attempt | internal/retry/retry.go:48-117 | the same, and so: at most MaxAttempts attempts; all but the last failed retryably; no error if and only if the last succeeded; every attempt context is cancelled once except a retained one; a failure is the context's or the last attempt's own, and only final or exhausted ones end the loop; the trailing return is unreachable |
| Governance.RunInvariant | internal/governance/provider.go:57-177 | every interleaving of calls and streams keeps the books balanced, breaker and semaphore included |
| Governance.SlotConservation | internal/concurrency/semaphore.go:25-41 | in every interleaving the in-flight count is the number of calls and unfinished streams holding a slot, and stays within capacity |
| Governance.EndedCallIsSettled | internal/governance/provider.go:57-177 | a finished call or stream has released its slot exactly once, cancelled its retained context exactly once, and reported exactly one outcome for the permit it got: failure if and only if the retry loop's error counts against the provider, or the FIRST ending of the stream handed over is such a receive error or a failed close; success if and only if the loop succeeded without a stream or that ending is end of stream; otherwise nothing |
| Governance.QuietMeansFree | internal/governance/provider.go:57-177 | nothing leaks: when all calls have ended no slot is taken and no permit is live, so a HALF_OPEN breaker admits the next probe |
| Governance.RefusalSpendsNothing | internal/governance/provider.go:57-87 | in every interleaving an ended call that got a slot replied with a refusal if and only if the breaker gave it no permit, and then made no raw call; one that got no slot made none either; an answer cost at least one; an answer or an error is what its retry loop came to |
| Governance.SpendingIsBounded | internal/governance/provider.go:69-80 | in every interleaving a logical call makes at most MaxAttempts raw calls, and a further one only after each earlier one failed retryably |
| GovernedStream.New | internal/concurrency/semaphore.go:18-23 | a semaphore is built exactly for a positive limit, and starts empty |
| GovernedStream.Semaphore.Acquire | internal/concurrency/semaphore.go:25-32 | a new slot is held, or nothing is held and the context was done |
| GovernedStream.Slot.Release | internal/concurrency/semaphore.go:34-41 | the slot is given back once; later releases change nothing |
| GovernedStream.ManagedStream.Finish | internal/governance/provider.go:171-177 | the first finish cancels, reports and releases; later ones leave breaker, semaphore and context alone |
| GovernedStream.ManagedStream.Observe | internal/governance/provider.go:150-169 | the first end of stream settles as success, a failed close or a receive error that counts against the provider as failure, any other ending as neither; a receive that does not end the stream, or comes later, changes nothing |
| SseEvents.SkipNoise | internal/provider/sse_stream.go:59-80 | comment and non-data lines within the size budget are read past |
| SseEvents.NoiseCarriesNothing | internal/provider/sse_stream.go:71-78 | comment and non-data lines put anywhere into an event change nothing of its data |
| SseEvents.GatherBlock | internal/provider/sse_stream.go:59-80 | lines within the size budget are gathered: their data values in order, their bytes counted |
| SseEvents.EveryStreamIsBlocks | internal/provider/sse_stream.go:64-70 | every stream of lines is a sequence of blocks ended by blank lines and a last block that is not |
| SseEvents.EventsReadBack | internal/provider/sse_stream.go:30-90 | for every such stream whose events are within the size limit, with any number of data lines each, noise anywhere, and the last event ended or not: the receives return each event's data, joined and decoded, in order, undecodable ones included, up to the event that ends the stream or the end of input, then end of stream on every later receive |
| SseEvents.OversizedIsRefused | internal/provider/sse_stream.go:60-63 | an event over 1048576 bytes, its blank line included, is refused as too large |
| SseText.LinesConsReturn | internal/provider/sse_stream.go:59 | a line ended by carriage return and newline reads like one ended by newline |
| Sse.JoinedLinesComeApart | internal/provider/sse_stream.go:100 | the data lines of an event are joined with a newline between each two: cutting there gives them back |
| Sse.ReceivedChunksAreComplete | internal/provider/sse_stream.go:105-112 | whatever the stream, every chunk received has an identifier and is a completion chunk |
| Sse.PaddedTerminatorEnds | internal/provider/sse_stream.go:101-103 | the terminator ends the stream in any surrounding white space |
| Sse.PrintedReadsBack | internal/provider/sse_stream.go:30-113 | whatever lines are printed as events, the parser reads those events back |
| Sse.SseStream.Take | internal/provider/sse_stream.go:59-80 | what one line does to the event being gathered: budget, blank line, comment, other field, data |
| Sse.SseStream.Receive | internal/provider/sse_stream.go:30-90 | the scanning loop refines the function on lines: result, remaining input and the sticky end |
| Sse.SseStream.Close | internal/provider/sse_stream.go:92-97 | the body is closed exactly once |
| Sse.DataLineCarries | internal/api/handler.go:128 | the line the printer writes for a payload is read by the parser as that payload |
| Sse.Forward | internal/api/handler.go:87-133 | prints one event per chunk up to the first thing that is not a written chunk, and the terminator exactly when the stream finished after at least one chunk |
| Sse.RoundTrip | internal/provider/sse_stream.go:30-113 | for every list of line-free decodable payloads within the size limit, parsing what was printed, with or without the terminator, gives exactly their chunks and then end of stream for ever |
| Keys.NormalizeKey | internal/service/gateway.go:424-444 | an accepted key consists of at most 128 characters of the key alphabet, and so holds no NUL |
| Keys.NormalizedKeyIsStable | internal/service/gateway.go:424-444 | keys of the alphabet are accepted unchanged, and normalizing twice is normalizing once |
| Keys.SurroundingsAreIgnored | internal/service/gateway.go:424-428 | white space around a key makes no difference |
| Keys.CacheableExactlyAtZero | internal/cache/cache.go:67-70 | a request may be cached if and only if it is for a whole answer and its temperature is given and, by the parts of its bits, zero |
| Keys.FramingIsInjective | internal/idempotency/redis.go:85-88 | identity and key can be read back from their NUL-separated framing |
| Keys.ScopedKeyIsInjective | internal/idempotency/redis.go:85-88 | two scoped keys are equal if and only if client and key are |
| Keys.CacheKeyIsInjective | internal/cache/cache.go:67-77 | two cache keys are equal if and only if client and request are |
| Keys.NamespacesAreDisjoint | internal/idempotency/redis.go:163-165 | records, cache entries and buckets live under names that never meet |
| SampleCodec.SampleIsOk | internal/cache/cache.go:71-75 | a codec without collisions or loss, and free of NUL, exists: the assumption made of SHA-256 and JSON can be met |
| Idempotency.Store.Begin | internal/idempotency/redis.go:11-25 | acquires a missing record, else tells pending, conflict and completed apart and changes nothing |
| Idempotency.Store.Complete | internal/idempotency/redis.go:27-35 | stores the payload exactly when the record is pending under this fingerprint |
| Idempotency.Store.Release | internal/idempotency/redis.go:37-43 | deletes the record exactly when it is pending under this fingerprint |
| Idempotency.CompletedIsImmutable | internal/idempotency/redis.go:11-43 | no script, under any key or fingerprint, changes a completed record |
| Gateway.RunCallsOk | internal/service/gateway.go:118-273 | in every run, only a call that acquired its key, or has none, looks up, asks and stores, and what it is about to store decodes to what it will return |
| GatewaySafety.RunIsExclusive | internal/service/gateway.go:156-273 | in every run in which a key's record expires only unclaimed, at most one call owns the key or has an original success under it, and the record agrees with them |
| GatewaySafety.AtMostOneFreshSuccess | internal/service/gateway.go:156-273 | in such runs two calls of a client under one key are never both served by the provider, whatever failures, releases, retries, store errors and expiries of ownerless records come between |
| GatewaySafety.SameBodyForSameKey | internal/service/gateway.go:156-273 | in such runs all successes of a client under one key carry the same body |
| GatewayExpiry.UndisturbedKeepsGuarantee | internal/service/gateway.go:156-273 | the same for one client and key: served at most once, and one body |
| GatewayExpiry.SecondAnswer | internal/idempotency/redis.go:11-25 | after a success whose record is gone, another call can be served with a different body |
| GatewayExpiry.LateReleaseHitsNextOwner | internal/idempotency/redis.go:37-43 | a release that comes after its record is gone can delete the next owner's reservation and let a third call through |
| GatewayExpiry.ClaimedExpiryBreaks | internal/idempotency/redis.go:11-43 | from any run in which a record expires under a call that owns it or has succeeded under it, some continuation answers the key with two bodies and, unless that success was a hit or replay, is served twice |
| GatewayExpiry.ExpiryLetsTwoThrough | internal/idempotency/redis.go:11-43 | for every client, key and request there is a run with one expiry in which two calls are both served, with different bodies |
| GatewayExpiry.MayExpireExactlyWhenUnclaimed | internal/service/gateway.go:156-273 | at any point of any run so far undisturbed, a record may expire without harm on every continuation if and only if no call under it owns it or has succeeded under it |
| GatewayLifetime.OwnedIsNotWritten | internal/idempotency/redis.go:11-43 | while a call owns its key nobody writes the record, so its time to live counts from the acquisition |
| GatewayLifetime.ExpiresUnclaimed | internal/idempotency/redis.go:11-43 | under the timing conditions, whenever a record expires no call under it owns it or has succeeded under it |
| GatewayLifetime.RunIsOnTime | internal/service/gateway.go:156-273 | every timed run that meets the conditions expires a key's record only unclaimed |
| GatewayLifetime.ServedOnceWhileResultLives | internal/idempotency/redis.go:11-43 | in every run of a store that keeps its times to live: if owners settle before their reservation can expire and completions take effect, then until the result's time to live has passed since the completion a key is served at most once and answered with one body |
| GatewayAnswers.ReservationIsAnswered | internal/service/gateway.go:156-198 | in every undisturbed run whose completions took effect, an applied reservation under a key another call claims answers: the very body of an equal request that has succeeded and settled, "in progress" while an equal request owns the key, a conflict for any other request |
| GatewayAnswers.RecordedExactlyWhenClaimed | internal/idempotency/redis.go:11-43 | in every undisturbed run of a reliable store a key's record is there if and only if some call owns it or has succeeded under it: failed calls leave their key free |
| GatewayAnswers.AcquiresExactlyWhenUnclaimed | internal/service/gateway.go:169-174 | in such a run a reservation acquires the key if and only if no call claims it |
| GatewayAnswers.CacheHoldsLastStored | internal/cache/cache.go:47-63 | the cache holds under each name exactly what was stored last and not dropped since |
| GatewayAnswers.LookupHitsLastStored | internal/service/gateway.go:200-230 | a lookup hits, with the body stored last, if and only if there is a cache, it can be reached, the request is for a whole answer at temperature zero, and something is stored; otherwise the provider is asked |
| GatewayAnswers.StreamOpensExactlyWhen | internal/service/gateway.go:275-350 | a stream opens if and only if its request is for one and has no idempotency key, the limiter lets it pass and the provider connects; a well-formed request that does not open makes one empty record |
| GatewayPaths.OutcomesAreExplained | internal/service/gateway.go:118-273 | in every run a call's outcome is what its own path says: invalid, rate limited, failed on a dependency, failed upstream, or fresh with the provider's body exactly when the request, the limiter, the store or the provider made it so; a call the limiter stopped touches neither store nor provider; a fresh cacheable answer is cached; whoever acquired its key completes it on success and releases it on failure |
| GatewayPaths.RecordsAreExplained | internal/service/gateway.go:145-273 | in every run a call that has returned made exactly one usage record, unless it was malformed or the store failed it |
| GatewayProvenance.HitIsGenuine | internal/service/gateway.go:206-230 | a cache hit is a body the provider returned to this client for this request |
| GatewayProvenance.ReplayIsGenuine | internal/service/gateway.go:183-198 | whatever a completed record replays is a body the provider returned to this client for this request; that it is replayed is GatewayAnswers.ReservationIsAnswered |
| GatewayProvenance.RunIsGenuine | internal/service/gateway.go:118-273 | in every run, expiries and store failures included, all calls, cache entries and completed records hold genuine bodies |
| GatewayProvenance.EverySuccessIsGenuine | internal/service/gateway.go:183-259 | in every run each successful result, fresh, hit or replay, is a body the provider really returned for an equal request of the same client |
| GatewayMetering.RunIsMetered | internal/service/gateway.go:118-350 | in every run the usage records match the calls and streams that made them, and recorded tokens are those of the answers whose calls have returned and of the streams that have ended |
| GatewayMetering.OneRecordPerSuccess | internal/service/gateway.go:145-273 | a call makes at most one usage record, and exactly one when it succeeds |
| GatewayMetering.OneRecordPerStream | internal/service/gateway.go:333-346 | an opened stream makes exactly one usage record once it has ended or been closed, and none before |
| GatewayMetering.RecordedTokensAreUsedTokens | internal/service/gateway.go:145-346 | when all calls have returned, recorded prompt, completion and total tokens each add up to what the provider's answers used plus, for every ended stream, the last usage it reported up to its first ending: hits, replays and failures add nothing |
| GatewayMetering.AtMostOneAnswerPerKey | internal/service/gateway.go:156-273 | no two answers of the provider belong to calls of one client under one key whose record expired only unclaimed |
| MeteredStream.Stream.Recv | internal/service/gateway.go:555-567 | the record log is what the events so far call for, and the context is cancelled once per record |
| MeteredStream.Stream.Close | internal/service/gateway.go:569-577 | the same for closing, which counts as an ending only if it comes first |
| MeteredStream.NothingBeforeTheEnd | internal/service/gateway.go:547-586 | nothing is recorded for a stream that has neither ended nor been closed |
| MeteredStream.FirstEndDecides | internal/service/gateway.go:547-586 | exactly one record, with the status and code of the first ending and the last usage seen up to it, whatever comes later |
| MeteredStream.RecordSaysHowItEnded | internal/service/gateway.go:555-586 | the one record, from the events alone: a success exactly when the stream ended with end of stream, else the code of the error, of the close or of the failed close; and the last usage received up to there |
| MeteredStream.LastUsageIsLast | internal/service/gateway.go:555-559 | the usage kept is the last one received, or zero |

## Left out

- Provider adapters, the provider factory and the test double (`internal/provider/openai_compatible.go`, `deepseek.go`, `factory.go`, `mock.go`): a raw provider is an arbitrary result.
- Error classification (`internal/provider/error.go`, `gatewayErrorCode`): errors carry abstract flags (breaker open, retryable, counts against the breaker).
- Configuration, metrics, storage, migrations, the Redis client and the server's wiring: only the resulting preconditions (positive limits, acceptable options) appear.
- HTTP glue in `internal/api` other than the streaming loop and the Retry-After rounding.
- Request validation and request identifiers in `GatewayService.Chat`: they reject or label a call before anything is shared. Failing to encode JSON is not modelled, because JSON is taken as a total codec; NaN and infinities, which JSON cannot carry, are not told apart from other 64-bit values.
- The opening of a stream is one step of the gateway machine: nothing it shares with other calls is touched in between.
- Decoding of script results (`integer`, `text`, `bytes`): a malformed result counts as a store failure.
- Callbacks (`OnStateChange`, `OnAttempt`, observers), attempt numbering, latency and panics.
- Line reading by `bufio.Scanner`: characters stand for bytes. Context cancellation during a stream read, and read errors are not modelled: the parser works on the whole text of the stream, split into lines.
- Router.Router.Route: the router's own renaming of responses and streams is not modelled, nor is the wording of its errors.
- Sse.Forward: is stated for streams that end or fail at some point; a payload whose write fails prints nothing.
- Retry.Attempt: attempt timeouts appear only as outcomes of the operation.
- TokenBucket.StoredBucket.Allow: arithmetic is over reals; rounding of doubles is not modelled.
- GatewayMetering.RecordedTokensAreUsedTokens: a recorder that fails to store a record is not modelled.
- BreakerSpec.RunInvariant: the failure ratio is a real and the generation counter is unbounded.
