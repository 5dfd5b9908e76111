/**
 The per-request bookkeeping `main.go` wraps around the pool, as a state
 machine: the `/books` handler selects a backend once and answers 503 when
 there is none; the reverse proxy's Director counts the request against the
 chosen backend; one of ModifyResponse or ErrorHandler later takes the
 count back, and ErrorHandler also marks the backend dead on a refused
 connection. Administrative additions and removals and health-check passes are
 further events on the same state.
 */
module Dispatch {
  import opened Options
  import opened Backends
  import opened ServerPool
  import Strategy

  /** Where one accepted request stands; both stages name the chosen backend object. */
  datatype Stage =
    | Attached(backend: nat)   // the handler put the backend in the request context
    | Forwarded(backend: nat)  // the Director counted the request against it

  /**
   The proxy: the pool, the normalised strategy name, the next fresh backend
   identity, the next fresh request identity, and the accepted requests that
   have not completed.
   */
  datatype Proxy = Proxy(pool: Pool, strategy: string, nextBackend: nat, nextRequest: nat, requests: map<nat, Stage>)

  /** What the `/books` handler does with a request: refuse it with 503, or hand it to the reverse proxy. */
  datatype Reply = ServiceUnavailable | Proxied(request: nat)

  datatype Handled = Handled(proxy: Proxy, reply: Reply)

  /** The result of the Director's choice: the pool afterwards and the chosen backend object, if any. */
  datatype Target = Target(pool: Pool, backend: Option<nat>)

  /** `CurrentConns.Add(delta)` on backend object `id`, seen through every pool entry that is that object. */
  function AddConns(bs: seq<Backend>, id: nat, delta: int): (r: seq<Backend>)
    ensures |r| == |bs|
    ensures forall j :: 0 <= j < |bs| && bs[j].id == id ==> r[j] == bs[j].(conns := bs[j].conns + delta)
    ensures forall j :: 0 <= j < |bs| && bs[j].id != id ==> r[j] == bs[j]
  {
    seq(|bs|, j requires 0 <= j < |bs| => if bs[j].id == id then bs[j].(conns := bs[j].conns + delta) else bs[j])
  }

  /** `SetAlive(false)` on backend object `id`. */
  function Demote(bs: seq<Backend>, id: nat): (r: seq<Backend>)
    ensures |r| == |bs|
    ensures forall j :: 0 <= j < |bs| && bs[j].id == id ==> r[j] == SetAlive(bs[j], false)
    ensures forall j :: 0 <= j < |bs| && bs[j].id != id ==> r[j] == bs[j]
  {
    seq(|bs|, j requires 0 <= j < |bs| => if bs[j].id == id then SetAlive(bs[j], false) else bs[j])
  }

  /**
   The `/books` handler: one selection; no backend means 503 and nothing is
   forwarded; otherwise the request is accepted with the chosen backend attached.
   No counter moves here.
   */
  function BooksHandler(s: Proxy): (r: Handled)
    ensures r.reply.ServiceUnavailable? <==> NoneAlive(s.pool.backends)
    ensures r.reply.ServiceUnavailable? ==> r.proxy == s
    ensures r.proxy.pool.backends == s.pool.backends
    ensures r.proxy.pool == GetNextValidPeer(s.pool, s.strategy).pool
    ensures r.proxy.strategy == s.strategy && r.proxy.nextBackend == s.nextBackend
    ensures r.reply.Proxied? ==>
              && r.reply.request == s.nextRequest
              && r.proxy.nextRequest == s.nextRequest + 1
    ensures r.reply.Proxied? ==>
              var sel := GetNextValidPeer(s.pool, s.strategy);
              && sel.peer.Some?
              && r.proxy.requests == s.requests[s.nextRequest := Attached(s.pool.backends[sel.peer.value].id)]
  {
    var sel := GetNextValidPeer(s.pool, s.strategy);
    match sel.peer
    case None => Handled(s.(pool := sel.pool), ServiceUnavailable)
    case Some(i) =>
      var req := s.nextRequest;
      Handled(s.(pool := sel.pool, nextRequest := req + 1,
                 requests := s.requests[req := Attached(s.pool.backends[i].id)]),
              Proxied(req))
  }

  /**
   The Director's choice of backend: the one attached to the request, if any,
   with no second selection; only a request with nothing attached selects again.
   */
  function DirectorTarget(p: Pool, strategy: string, attached: Option<nat>): (r: Target)
    ensures attached.Some? ==> r == Target(p, attached)
    ensures attached.None? ==> r.pool == GetNextValidPeer(p, strategy).pool
    ensures attached.None? ==> (r.backend.None? <==> NoneAlive(p.backends))
    ensures attached.None? ==>
              var sel := GetNextValidPeer(p, strategy);
              r.backend.Some? ==> sel.peer.Some? && r.backend.value == p.backends[sel.peer.value].id
  {
    match attached
    case Some(id) => Target(p, Some(id))
    case None =>
      var sel := GetNextValidPeer(p, strategy);
      match sel.peer
      case None => Target(sel.pool, None)
      case Some(i) => Target(sel.pool, Some(p.backends[i].id))
  }

  /**
   The Director for request `req`: the attached backend's counter goes up by
   one and the request is marked forwarded to it. A request that is not waiting
   for its Director is left alone, so no request is counted twice. Every request
   reaches the Director with a backend attached, so `DirectorTarget` returns
   that backend and its re-selection branch is never taken here.
   */
  function Director(s: Proxy, req: nat): (r: Proxy)
    ensures req in s.requests && s.requests[req].Attached? ==>
              var id := s.requests[req].backend;
              && r == s.(pool := r.pool, requests := s.requests[req := Forwarded(id)])
              && r.pool.current == s.pool.current
              && |r.pool.backends| == |s.pool.backends|
              && forall j :: 0 <= j < |s.pool.backends| ==>
                   r.pool.backends[j] == s.pool.backends[j].(conns := r.pool.backends[j].conns)
                   && r.pool.backends[j].conns == s.pool.backends[j].conns + (if s.pool.backends[j].id == id then 1 else 0)
    ensures !(req in s.requests && s.requests[req].Attached?) ==> r == s
  {
    if req in s.requests && s.requests[req].Attached? then
      var id := s.requests[req].backend;
      s.(pool := s.pool.(backends := AddConns(s.pool.backends, id, 1)),
         requests := s.requests[req := Forwarded(id)])
    else s
  }

  /**
   ModifyResponse for request `req`: the counter of the backend it was
   forwarded to goes down by one and the request completes.
   */
  function ModifyResponse(s: Proxy, req: nat): (r: Proxy)
    ensures req in s.requests && s.requests[req].Forwarded? ==>
              var id := s.requests[req].backend;
              && r == s.(pool := r.pool, requests := s.requests - {req})
              && r.pool.current == s.pool.current
              && |r.pool.backends| == |s.pool.backends|
              && forall j :: 0 <= j < |s.pool.backends| ==>
                   r.pool.backends[j] == s.pool.backends[j].(conns := r.pool.backends[j].conns)
                   && r.pool.backends[j].conns == s.pool.backends[j].conns - (if s.pool.backends[j].id == id then 1 else 0)
    ensures !(req in s.requests && s.requests[req].Forwarded?) ==> r == s
  {
    if req in s.requests && s.requests[req].Forwarded? then
      var id := s.requests[req].backend;
      s.(pool := s.pool.(backends := AddConns(s.pool.backends, id, -1)), requests := s.requests - {req})
    else s
  }

  /**
   ErrorHandler for request `req` (it always answers 503 to the client): the
   counter of the backend the request was forwarded to goes down by one, that
   backend is marked dead only if the error was a refused connection, and the
   request completes.
   */
  function ErrorHandler(s: Proxy, req: nat, refused: bool): (r: Proxy)
    ensures req in s.requests && s.requests[req].Forwarded? ==>
              var id := s.requests[req].backend;
              && r == s.(pool := r.pool, requests := s.requests - {req})
              && r.pool.current == s.pool.current
              && |r.pool.backends| == |s.pool.backends|
              && forall j :: 0 <= j < |s.pool.backends| ==>
                   && r.pool.backends[j].id == s.pool.backends[j].id
                   && r.pool.backends[j].url == s.pool.backends[j].url
                   && r.pool.backends[j].conns == s.pool.backends[j].conns - (if s.pool.backends[j].id == id then 1 else 0)
                   && r.pool.backends[j].alive == (s.pool.backends[j].alive && !(refused && s.pool.backends[j].id == id))
    ensures !(req in s.requests && s.requests[req].Forwarded?) ==> r == s
  {
    if req in s.requests && s.requests[req].Forwarded? then
      var id := s.requests[req].backend;
      var counted := AddConns(s.pool.backends, id, -1);
      var bs := if refused then Demote(counted, id) else counted;
      s.(pool := s.pool.(backends := bs), requests := s.requests - {req})
    else s
  }

  /** What can happen next, in any interleaving. */
  datatype Event =
    | Arrive                            // a request reaches `/books`
    | Direct(req: nat)                  // the reverse proxy runs its Director for `req`
    | Respond(req: nat)                 // the backend's response to `req` arrives
    | Fail(req: nat, refused: bool)     // forwarding `req` fails; `refused` is ECONNREFUSED
    | AdminAdd(url: string)             // the admin endpoint adds a backend
    | AdminRemove(url: string)          // the admin endpoint removes a backend
    | HealthPass(verdict: nat -> Probe) // a health-check pass; `verdict(k)` is the k-th member's probe

  /**
   The admin endpoint's POST: a fresh backend object, not yet alive and with no
   connections, is appended with no duplicate check. The health pass it starts
   in the background is a separate `HealthPass` event.
   */
  function AdminAddBackend(s: Proxy, url: string): (r: Proxy)
    ensures r.pool.backends == s.pool.backends + [Backend(s.nextBackend, url, false, 0)]
    ensures forall j :: 0 <= j < |s.pool.backends| && s.pool.backends[j].id < s.nextBackend ==>
              s.pool.backends[j].id != r.pool.backends[|s.pool.backends|].id
    ensures r.nextBackend == s.nextBackend + 1
    ensures r == s.(pool := r.pool, nextBackend := r.nextBackend) && r.pool.current == s.pool.current
  {
    s.(pool := AddBackend(s.pool, Backend(s.nextBackend, url, false, 0)), nextBackend := s.nextBackend + 1)
  }

  /**
   The admin endpoint's DELETE: the first backend with the URL leaves the pool,
   if there is one; otherwise nothing changes (the endpoint answers 404).
   */
  function AdminRemoveBackend(s: Proxy, url: string): (r: Proxy)
    ensures (exists j :: 0 <= j < |s.pool.backends| && s.pool.backends[j].url == url)
              <==> |r.pool.backends| + 1 == |s.pool.backends|
    ensures (forall j :: 0 <= j < |s.pool.backends| ==> s.pool.backends[j].url != url) ==> r == s
    ensures forall j :: 0 <= j < |r.pool.backends| ==> r.pool.backends[j] in s.pool.backends
    ensures r == s.(pool := r.pool) && (CursorOk(s.pool) ==> CursorOk(r.pool))
  {
    s.(pool := RemoveBackend(s.pool, url).pool)
  }

  /**
   One health-check pass, from the ticker or started by an admin addition:
   each member's liveness comes from its own probe outcome, `verdict(k)` for
   the k-th member; nothing else changes.
   */
  function HealthCheck(s: Proxy, verdict: nat -> Probe): (r: Proxy)
    ensures r == s.(pool := r.pool) && r.pool.current == s.pool.current
    ensures |r.pool.backends| == |s.pool.backends|
    ensures forall k :: 0 <= k < |s.pool.backends| ==>
              && r.pool.backends[k] == s.pool.backends[k].(alive := r.pool.backends[k].alive)
              && (r.pool.backends[k].alive <==> ProbeVerdict(verdict(k)))
  {
    s.(pool := CheckHealth(s.pool, Probes(s.pool, verdict)))
  }

  /**
   One event. Request events never change which backends are in the pool, and
   no event changes the strategy.
   */
  function Step(s: Proxy, e: Event): (r: Proxy)
    ensures r.strategy == s.strategy
    ensures (e.Arrive? || e.Direct? || e.Respond? || e.Fail?) ==>
              && r.nextBackend == s.nextBackend
              && |r.pool.backends| == |s.pool.backends|
              && forall j :: 0 <= j < |s.pool.backends| ==>
                   r.pool.backends[j].id == s.pool.backends[j].id && r.pool.backends[j].url == s.pool.backends[j].url
  {
    match e
    case Arrive => BooksHandler(s).proxy
    case Direct(req) => Director(s, req)
    case Respond(req) => ModifyResponse(s, req)
    case Fail(req, refused) => ErrorHandler(s, req, refused)
    case AdminAdd(url) => AdminAddBackend(s, url)
    case AdminRemove(url) => AdminRemoveBackend(s, url)
    case HealthPass(verdict) => HealthCheck(s, verdict)
  }

  function Run(s: Proxy, events: seq<Event>): Proxy
    decreases |events|
  {
    if |events| == 0 then s else Run(Step(s, events[0]), events[1..])
  }

  /**
   Startup: the configured URLs become backends in order, not yet alive; the
   strategy name is normalised; one health-check pass runs; then one selection
   is made only to log whether any backend is up, which under round-robin
   already moves the cursor.
   */
  function Startup(urls: seq<string>, rawStrategy: string, verdict: nat -> Probe): (r: Proxy)
    ensures |r.pool.backends| == |urls| && r.nextBackend == |urls|
    ensures forall k :: 0 <= k < |urls| ==>
              && r.pool.backends[k].id == k
              && r.pool.backends[k].url == urls[k]
              && r.pool.backends[k].conns == 0
              && (r.pool.backends[k].alive <==> ProbeVerdict(verdict(k)))
    ensures r.strategy == Strategy.NormalizeStrategy(rawStrategy)
    ensures r.requests == map[] && CursorOk(r.pool)
  {
    var added := Pool(seq(|urls|, k requires 0 <= k < |urls| => Backend(k, urls[k], false, 0)), 0);
    var strategy := Strategy.NormalizeStrategy(rawStrategy);
    var checked := CheckHealth(added, Probes(added, verdict));
    Proxy(GetNextValidPeer(checked, strategy).pool, strategy, |urls|, 0, map[])
  }

}
