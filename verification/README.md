# Reverse-proxy backend pool, modelled in Dafny

This project models the core of a small HTTP reverse proxy that load-balances
requests over a dynamic pool of backends.

- The **pool** (`serverPool/serverPool.go`) is an ordered sequence of backends
  plus a rotation cursor. A backend has a URL, an `Alive` flag and an in-flight
  connection counter. The pool offers:
  - peer selection, round-robin or least-connections (`GetNextValidPeer`);
  - appending a backend (`AddBackend`);
  - removing the first backend with a given URL (`RemoveBackend`);
  - setting the liveness of the first backend with a given URL (`SetBackendStatus`);
  - a status snapshot (`Snapshot`);
  - a health-check pass (`CheckHealth`).
- The **dispatch lifecycle** (`main.go`) wraps each request:
  - the `/books` handler selects a backend once and answers 503 when there is none;
  - the reverse proxy's Director increments the chosen backend's counter;
  - ModifyResponse or ErrorHandler decrements that same backend's counter;
  - ErrorHandler also marks the backend dead on a refused connection.
  The configured strategy name is lower-cased, and an empty name becomes "round-robin".

Every operation is a pure function over immutable datatypes:

- `options.dfy`: `Option`, which stands in for a nil pointer or a missing index.
- `backend.dfy`: the `Backend` entity, `BackendStatus`, `SetAlive` and the probe verdict rule.
- `cyclic.dfy`: the round-robin slot `(start + t) % n` and its arithmetic.
- `server_pool.dfy`: the pool and its operations.
- `pool_properties.dfy`: lemmas that relate several pool operations.
- `strategy.dfy`: strategy-name normalisation.
- `dispatch.dfy`: the request lifecycle, as a state machine over the pool.
- `dispatch_properties.dfy`: the connection-counting invariant and the net-zero lemma.

A Go `*Backend` is one object that the pool, the health checker and an
in-flight request all point to. The model gives each backend an `id`. The
state machine allocates a fresh `id` for every added backend, so two backends
added with the same URL stay distinct. A counter change or demotion applies to
the pool entry with that `id`. After a backend has been removed, a late
decrement or demotion for it leaves the pool unchanged.

Behaviour of the code worth noting:

- The counter is taken back in ModifyResponse (`main.go:81-87`), which runs
  when the response headers arrive, before the body is streamed.
- ErrorHandler always answers 503 (`main.go:97`).
- At startup, `main.go:54` calls `GetNextValidPeer` once just to log whether
  any backend is up. Under round-robin this call already moves the cursor, and
  `Dispatch.Startup` models that.
- `RemoveBackend` does not shift the cursor when the removed backend was before
  it (`serverPool/serverPool.go:91-94`). It only resets the cursor to 0 when the
  cursor falls outside the pool.

## Model

| member | source | states |
|---|---|---|
| Backends.SetAlive | serverPool/serverPool.go:24-28 | only the liveness flag changes: identity, URL and counter are kept |
| Backends.ProbeVerdict | serverPool/serverPool.go:144-159 | a probe makes the backend alive iff it had no transport error and its status is in [200, 400) |
| ServerPool.FirstAlive | serverPool/serverPool.go:67-74 | the round-robin scan stops at the first alive slot, every slot it passed was dead, and an empty result means every slot scanned was dead |
| ServerPool.RoundRobin | serverPool/serverPool.go:66-76 | picks the first alive backend at or after the cursor, wrapping around, and sets the cursor to (i+1) mod n; it returns none, with the pool unchanged, iff no backend is alive |
| ServerPool.LeastFrom | serverPool/serverPool.go:53-64 | the loop with strict `<` ends on an alive backend with the least count, and ties go to the earliest; it ends on none only if no backend is alive |
| ServerPool.LeastConnections | serverPool/serverPool.go:52-65 | the result is an alive backend with the minimum count, the earliest on a tie; it is none iff no backend is alive |
| ServerPool.GetNextValidPeer | serverPool/serverPool.go:42-77 | the result is none on an empty pool or when no backend is alive; otherwise it is a current, alive member. The three least-connections names never move the cursor; every other name is round-robin. Backends are never changed, and the cursor invariant is kept |
| ServerPool.AddBackend | serverPool/serverPool.go:79-83 | appends at the end with no duplicate check; earlier elements and the cursor are unchanged |
| ServerPool.FindUrl | serverPool/serverPool.go:89-90 | finds the first index whose URL string equals the argument, or reports that no backend has it |
| ServerPool.RemoveBackend | serverPool/serverPool.go:85-100 | returns true iff some backend has the URL. Only the first match is removed and the others keep their order. With no match the pool is unchanged. The cursor becomes 0 if it is no longer below the length, so the cursor invariant holds |
| ServerPool.SetBackendStatus | serverPool/serverPool.go:118-127 | only the first backend with the URL gets the new liveness; everything else, including the cursor, is unchanged |
| ServerPool.Snapshot | serverPool/serverPool.go:103-116 | same length and order as the pool; each entry mirrors URL, liveness and count |
| ServerPool.CheckHealth | serverPool/serverPool.go:129-163 | membership, order, identity, counters and cursor are unchanged; each copied backend is alive iff its probe had no error and a status in [200, 400) |
| PoolProperties.SelectOnEmptyPool | serverPool/serverPool.go:46-49 | selection on an empty pool returns none and leaves the pool as it was, under every strategy |
| PoolProperties.RoundRobinPickUnique | serverPool/serverPool.go:67-74 | at most one backend satisfies the round-robin rule, so the rule fixes the choice |
| PoolProperties.LeastLoadedPickUnique | serverPool/serverPool.go:55-64 | at most one backend satisfies the least-connections rule with first-wins ties |
| PoolProperties.AllAliveRoundRobin | serverPool/serverPool.go:67-73 | with every backend alive, round-robin picks the backend under the cursor and advances the cursor by one, wrapping |
| PoolProperties.ReachedWithin | serverPool/serverPool.go:67-73 | an alive backend t slots ahead of the cursor is picked within t+1 round-robin selections |
| PoolProperties.RoundRobinFair | serverPool/serverPool.go:67-73 | while liveness is static, each alive backend is picked within n successive round-robin selections |
| PoolProperties.RoundRobinSkipsDead | serverPool/serverPool.go:66-76 | with A, B, C where B is dead, successive round-robin picks are A, C, A |
| PoolProperties.LeastConnectionsTies | serverPool/serverPool.go:52-65 | with counts A=3, B=1, C=1 the pick is B; once B has 2 the pick is C |
| PoolProperties.AddThenRemove | serverPool/serverPool.go:79-100 | adding a backend whose URL is new and then removing that URL gives back the original pool and returns true |
| PoolProperties.RemoveTakesFirstMatch | serverPool/serverPool.go:89-96 | removal takes exactly the first match out of the multiset of backends and leaves every other backend in the pool |
| PoolProperties.SetBackendStatusIdempotent | serverPool/serverPool.go:118-127 | setting the same liveness twice is the same as setting it once |
| PoolProperties.MarkedDeadNotSelected | serverPool/serverPool.go:118-127 | a backend just marked dead is not chosen by the next selection, under either strategy |
| PoolProperties.CheckHealthIdempotent | serverPool/serverPool.go:129-163 | applying the same probe outcomes twice gives the same pool as applying them once |
| PoolProperties.SelectAfterCheckHealth | serverPool/serverPool.go:144-159 | after a pass, only a backend whose probe succeeded can be selected, and selection returns none iff no probe succeeded |
| PoolProperties.SnapshotAgreesWithSelection | serverPool/serverPool.go:103-116 | selection returns none iff the snapshot lists no alive backend, and the chosen backend's snapshot entry is alive |
| PoolProperties.RunOps | serverPool/serverPool.go:79-100 | over any sequence of selections, additions, removals, liveness changes and health passes: member count = start + additions - successful removals, and the cursor invariant holds throughout |
| Strategy.NormalizeStrategy | main.go:42-45 | the result is never empty, an empty name becomes "round-robin", any other name is kept up to case, and no upper-case letter is left |
| Strategy.NormalizeIdempotent | main.go:42-45 | normalising twice gives the same result as normalising once |
| Strategy.NormalizeIgnoresCase | main.go:42 | names that differ only in letter case normalise to the same strategy |
| Strategy.NormalizeExamples | main.go:42-45 | "LEAST_CONN" selects least-connections; an empty or unknown name selects round-robin |
| Dispatch.BooksHandler | main.go:101-109 | selects exactly once. It answers 503 iff no backend is alive, and then forwards nothing and changes nothing. Otherwise it accepts the request with exactly the backend the selection chose attached. No counter moves |
| Dispatch.DirectorTarget | main.go:62-70 | reuses the backend attached to the request without selecting again; only when nothing is attached does it select, and then it targets the backend that selection chose, or none iff no backend is alive |
| Dispatch.Director | main.go:61-80 | increments the attached backend's counter by exactly one and marks the request forwarded. Nothing else changes. A request not waiting for its Director is left alone |
| Dispatch.ModifyResponse | main.go:81-87 | decrements the counter of the backend the request was forwarded to by exactly one, and completes the request |
| Dispatch.ErrorHandler | main.go:88-98 | decrements the same backend's counter by one. It marks that backend dead only when the error is a refused connection; otherwise liveness is untouched |
| Dispatch.Startup | main.go:42-56 | backends come from the configured URLs in order, not yet alive, with zero connections. One health pass sets their liveness. The strategy is normalised. No request is in flight |
| Dispatch.AdminAddBackend | admin/admin.go:56 | the admin endpoint appends a fresh backend object, distinct from every earlier one, not alive and with zero connections; nothing else changes |
| Dispatch.AdminRemoveBackend | admin/admin.go:71 | the pool shrinks by one iff some backend has the URL, and with no match nothing changes; every remaining backend was already in the pool, the cursor invariant holds, and the requests are untouched |
| Dispatch.HealthCheck | main.go:116-122 | one health pass, from the ticker or started by an admin addition (admin/admin.go:57): each member keeps its identity, URL and counter and is alive iff its own probe passed; the cursor and the requests are untouched |
| Dispatch.Step | admin/admin.go:56-71 | the events the proxy reacts to, with the admin endpoint's add and remove and the health pass among them; request events never change which backends are in the pool, and no event changes the strategy |
| DispatchProperties.StartupInv | main.go:47-56 | the connection invariant holds after startup |
| DispatchProperties.StepInv | main.go:60-109 | every handler, Director, response, error, admin add/remove and health-check event keeps this invariant: each counter equals the number of requests forwarded to that backend and not yet completed, and no backend is in the pool twice |
| DispatchProperties.RunInv | main.go:60-109 | the invariant holds after any interleaving of those events |
| DispatchProperties.CountersNeverNegative | main.go:71-90 | in every state reachable from startup, every counter equals its in-flight requests and so is never negative |
| DispatchProperties.DecrementFindsACount | main.go:82-90 | when a response or error arrives, the counter it decrements is at least one |
| DispatchProperties.ForwardedNetsToZero | main.go:61-98 | for a request with a backend attached, the Director followed by the response or the error completes the request and leaves every backend's counter, identity and URL as they were; after a refused connection exactly the attached backend is dead, and otherwise no liveness changes |
| DispatchProperties.RequestNetsToZero | main.go:60-109 | when no backend is alive, one request answered 503 leaves the whole state exactly as it was. Otherwise the request runs from the handler to its response or error and leaves every counter, identity and URL as it was and no request in flight; after a refused connection exactly the backend the handler chose is dead, and otherwise no liveness changes |

## Left out

- Locks and atomics (the pool mutex, per-backend `RWMutex`, `atomic.Int64`) and the goroutine fan-out of the health check: every operation is one atomic step, and concurrent requests are modelled as interleaved events of the `Dispatch` state machine.
- ServerPool.SetBackendStatus: on the not-found path the source never releases the pool mutex; the model treats that path as a no-op and says nothing about the lock.
- ServerPool.CheckHealth: the HTTP probe (URL resolution against `/books`, the client, the 2-second timeout) is replaced by a given probe outcome per copied member. A pass is applied as one step, so a removal that happens between the copy and the probe write-back is not modelled.
- URLs are strings compared by equality, standing for `URL.String()`; URL parsing and the admin endpoint's validation are not modelled.
- Strategy.NormalizeStrategy: lower-cases ASCII letters only, because `strings.ToLower`'s full Unicode case mapping is not modelled.
- The cursor is a `nat` and counters are `int`. The source uses `uint64` and `int64`; their wrap-around cannot be reached while the cursor invariant holds and counters track in-flight requests.
- The reverse-proxy mechanics (request rewriting of scheme and host, response streaming), logging, config-file reading and JSON decoding, `time.ParseDuration`, the timing of the health-check ticker and `ListenAndServe` are left out. Each tick's pass and each admin-triggered pass is a `HealthPass` event of the state machine.
- Dispatch.Director: the re-selection branch for a request with no attached backend is modelled in `DirectorTarget`. The state machine never takes it, because every request reaches the Director through the `/books` handler, which always attaches a backend.
- Dispatch.ErrorHandler: the model assumes the reverse proxy calls at most one of ModifyResponse and ErrorHandler per request, and ignores a second callback for a request already completed. `httputil.ReverseProxy` is not part of this model. On a 101 Switching Protocols response it runs ModifyResponse and then its upgrade handling, which can still call ErrorHandler for the same request (for example when the backend switches protocol without being asked). The source would then decrement the counter twice (`main.go:83` and `main.go:90`) and leave it at -1. `DispatchProperties.CountersNeverNegative` rests on this assumption.
- Dispatch.ModifyResponse and Dispatch.ErrorHandler: ignore a request that was never forwarded, because the reverse proxy always runs the Director before either of them.
- admin/admin.go's HTTP handling, JSON decoding and URL validation are not modelled; its AddBackend, RemoveBackend and CheckHealth calls are the AdminAdd, AdminRemove and HealthPass events of `Dispatch.Step`. The background health pass that an addition starts is a separate `HealthPass` event, so other events may run between the two.
- server/server.go and client/client.go are not part of this model: they are a sample books backend and a demonstration client.
