/**
 The backend entity of `serverPool/serverPool.go`: one upstream server with its
 liveness flag and in-flight connection counter, the read-only status record the
 admin page reports, and the verdict rule of a health probe.
 */
module Backends {

  /**
   One upstream server. `id` stands for the identity of the Go `*Backend`
   object: the pool, the health checker and an in-flight request all refer to
   the same object, and two backends added with the same URL are still two
   objects. `url` is `URL.String()`; `conns` is the `CurrentConns` counter.
   */
  datatype Backend = Backend(id: nat, url: string, alive: bool, conns: int)

  /** The point-in-time projection reported by `Snapshot`. */
  datatype BackendStatus = BackendStatus(url: string, alive: bool, currentConnections: int)

  /** The outcome of one health probe: whether the GET failed in transport, and the status code it got. */
  datatype Probe = Probe(transportError: bool, status: int)

  /** `Backend.SetAlive`: change the liveness flag and nothing else. */
  function SetAlive(b: Backend, alive: bool): (r: Backend)
    ensures r.alive == alive
    ensures r.id == b.id && r.url == b.url && r.conns == b.conns
  {
    b.(alive := alive)
  }

  /**
   The liveness a probe outcome assigns, following the probe goroutine's
   branches: a transport error marks the backend dead, then a status outside
   [200, 400) does, and only what is left marks it alive.
   */
  function ProbeVerdict(p: Probe): (alive: bool)
    ensures alive <==> !p.transportError && 200 <= p.status < 400
  {
    if p.transportError then false
    else if p.status < 200 || p.status >= 400 then false
    else true
  }

}
