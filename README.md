# Per-client rate limiting of an HTTP middleware, in Dafny

This project models the rate limiter of a small Go HTTP server. A middleware
wraps every request. It keeps two tables keyed by the client's remote address:
a request counter (`remoteAddr`, a `uint64` per address) and a next-try
instant (`remoteAddrNextTry`, a `time.Time` per address). Each request runs a
three-way rule:

1. If the stored next-try instant is still in the future, the request is
   rejected with status 429. Nothing changes.
2. Otherwise, if the counter has reached the limit of 20, the request is
   rejected with 429. The counter is reset to 0 and next-try becomes
   `now + 10s`.
3. Otherwise the counter is incremented and the request goes to the
   downstream handler.

Layout:

- `rate_limit.dfy`, module `RateLimit`: the constants, the two tables as a
  value (`State`), and one decision as a function (`Step`). It also holds the
  lemmas for each branch and for the invariants of a single decision.
- `runs.dfy`, module `Runs`: series of decisions (`Run`). It holds the
  induction lemmas about bursts, lockouts and invariants over any series, and
  the lockout cycle worked through end to end.
- `middleware.dfy`, module `Middleware`: the class `Counters`, whose two map
  fields are updated in place by `Decide`. `Decide` is proved equal to `Step`.
  `Handle` wraps a downstream handler. A client method drives one object
  through the lockout cycle.

Time is an `Instant`: a natural number of nanoseconds since Go's zero
`time.Time`. A missing next-try entry reads as that zero instant, as a Go map
read does. It is never in the future, because `now >= 0`. A missing counter
reads as 0. The counter is a `uint64` newtype, and `Inc` wraps to 0 past the
largest value as Go's `++` does. `BelowLimitAllows` shows that the wrap is
never taken.

The wall clock (`time.Now()`) is the `now` parameter. The downstream handler
is the parameter `next` of `Handle`, a function from request to response.

## Model

| member | source | states |
|---|---|---|
| `RateLimit.Step` | src/main.go:30-41 | a decision for one address changes no other address's counter or next-try, and removes no entry from either table |
| `RateLimit.LockedOutRejects` | src/main.go:30-33 | when `now` is strictly before the stored next-try, the request is rejected and the state is unchanged |
| `RateLimit.LockedOutIsStrict` | src/main.go:30 | the address is locked out exactly when `now` is before its next-try; at the next-try instant itself the outcome depends only on the counter check |
| `RateLimit.FirstRequestAllowed` | src/main.go:30-40 | an address absent from both tables is not locked out; its first request is allowed and its counter becomes 1 |
| `RateLimit.LimitReachedPenalises` | src/main.go:34-38 | not locked out and counter `>= 20`: rejected, counter reset to 0, next-try set to `now + 10s`, which is strictly after `now`, so the address is now locked out |
| `RateLimit.BelowLimitAllows` | src/main.go:34-41 | not locked out and counter below 20: allowed, the counter grows by exactly 1 with no `uint64` wrap, and next-try is untouched |
| `RateLimit.AllowedIff` | src/main.go:30-41 | both directions: allowed exactly when neither locked out nor at the limit |
| `RateLimit.StepKeepsBounded` | src/main.go:34-40 | if every counter is within [0, 20] before a decision, every counter is within it after |
| `RateLimit.DecidedAddressBounded` | src/main.go:34-40 | unless locked out, the decided address's counter ends at most 20, whatever it held before |
| `RateLimit.NextTryNeverDecreases` | src/main.go:30-36 | no next-try instant ever decreases; one that changes belongs to the decided address and is strictly after `now` |
| `RateLimit.OtherAddressesUnchanged` | src/main.go:30-40 | a decision for one address leaves every other address's counter and next-try as they were |
| `Runs.Run` | src/main.go:26-43 | a series of requests, decided one at a time, yields exactly one outcome per request |
| `Runs.RunAppend` | src/main.go:26-43 | deciding two series back to back equals deciding the second from the state the first leaves |
| `Runs.RejectedWhileLockedOut` | src/main.go:30-33 | any number of requests at instants before the next-try are all rejected and leave the state unchanged |
| `Runs.AllowedBurst` | src/main.go:34-41 | requests that are not locked out and fit under the limit are all allowed; the counter grows by their number, next-try is unchanged and no other counter changes |
| `Runs.FloodAllowsExactlyLimit` | src/main.go:11-40 | of n simultaneous requests from an address with counter 0 that is not locked out, exactly the first 20 are allowed and the rest rejected; past 20 the counter ends at 0 and next-try at `now + 10s` |
| `Runs.LockoutCycle` | src/main.go:11-40 | a fresh address: 20 requests are allowed; the 21st is rejected and resets the counter to 0; every request before the 21st's instant plus 10s is rejected and the counter stays 0; the first one at or after it is allowed with the counter at 1 |
| `Runs.WorkedExample` | src/main.go:10-40 | 20 requests at t=0 are allowed; one at 1s is rejected with lockout until 11s; one at 5s is rejected; one at 12s is allowed with the counter at 1 |
| `Runs.RunKeepsBounded` | src/main.go:34-40 | every counter stays within [0, 20] after any series of requests, so the `uint64` never overflows |
| `Runs.RunNextTryNeverDecreases` | src/main.go:36 | no next-try instant moves backwards over any series of requests |
| `Runs.RunLeavesOthersAlone` | src/main.go:30-40 | requests from other addresses never touch an address's counter or next-try |
| `Middleware.Counters.constructor` | src/main.go:21-24 | both tables start empty |
| `Middleware.Counters.Decide` | src/main.go:28-40 | the in-place update of the two maps equals `Step`: the branch outcomes, the reset, the new next-try, the increment by one, and no change to other addresses; the counter bound is preserved |
| `Middleware.Counters.Handle` | src/main.go:27-42 | downstream is invoked exactly when the decision is Allow, and its response is returned unchanged; on Reject the response is a bare 429 |
| `Middleware.LockoutCycleOnCounters` | src/main.go:10-41 | on a fresh `Counters` object, 20 requests at one instant are allowed; the 21st and a retry within 10s are rejected; a request 10s or more later is allowed with the counter at 1 |

## Left out

- `main` (src/main.go:45-56): server bootstrap, route registration and `ListenAndServe` are I/O.
- The `sync.RWMutex` and its `Lock`/`defer Unlock` (src/main.go:16, 28-29): each call is one atomic step. Concurrent interleavings and the lock being held during the downstream call are not modelled.
- `http.ResponseWriter` and `http.Handler`: a rejection is the response value `Response(429, [])`, and the downstream handler is a pure function from request to response. Side effects of the downstream handler are not modelled.
- The global singleton `counters` (src/main.go:21-24): it is a constructed `Counters` object that starts empty.
- `time.Now()` is read twice in the source, once for the lockout check (line 30) and once for the new next-try (line 36). The model uses one injected instant `now` for both, so it ignores the nanoseconds that may pass between the two reads.
- `time.Time.Sub` saturates at the bounds of `time.Duration`, and `time.Time.Add` can overflow. Both are left out. Saturation keeps the sign of the difference, so it never changes the lockout check. Instants are unbounded naturals.
- Go's monotonic-clock reading inside `time.Time` is not modelled. An instant is a single number.
