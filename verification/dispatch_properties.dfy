/**
 The connection-counting guarantees of the request lifecycle: in every state
 reachable from startup, each backend's counter equals the number of requests
 forwarded to it that have not completed, so it is never negative and never
 taken below zero; and a request that runs from the handler to its response or
 error, with nothing in between, leaves every counter where it was.
 */
module DispatchProperties {
  import opened Options
  import opened Backends
  import opened ServerPool
  import opened Dispatch

  /** The requests forwarded to backend object `id` that have not completed. */
  function Holders(reqs: map<nat, Stage>, id: nat): set<nat> {
    set r | r in reqs && reqs[r] == Forwarded(id)
  }

  /** No backend object sits in the pool twice. */
  predicate UniqueIds(bs: seq<Backend>) {
    forall i, j :: 0 <= i < j < |bs| ==> bs[i].id != bs[j].id
  }

  predicate Inv(s: Proxy) {
    && UniqueIds(s.pool.backends)
    && CursorOk(s.pool)
    && (forall j :: 0 <= j < |s.pool.backends| ==> s.pool.backends[j].id < s.nextBackend)
    && (forall r :: r in s.requests ==> r < s.nextRequest && s.requests[r].backend < s.nextBackend)
    && (forall j :: 0 <= j < |s.pool.backends| ==> s.pool.backends[j].conns == |Holders(s.requests, s.pool.backends[j].id)|)
  }

  // ---------------------------------------------------------------------------
  // How the holder sets move
  // ---------------------------------------------------------------------------

  /** Accepting a fresh request forwards it nowhere yet. */
  lemma HoldersAttach(reqs: map<nat, Stage>, req: nat, chosen: nat, id: nat)
    requires req !in reqs
    ensures Holders(reqs[req := Attached(chosen)], id) == Holders(reqs, id)
  {
  }

  /** The Director adds its request to the holders of the chosen backend and of no other. */
  lemma HoldersForward(reqs: map<nat, Stage>, req: nat, chosen: nat, id: nat)
    requires req in reqs && reqs[req] == Attached(chosen)
    ensures |Holders(reqs[req := Forwarded(chosen)], id)| == |Holders(reqs, id)| + (if id == chosen then 1 else 0)
  {
    var after := Holders(reqs[req := Forwarded(chosen)], id);
    if id == chosen {
      assert after == Holders(reqs, id) + {req};
    } else {
      assert after == Holders(reqs, id);
    }
  }

  /** Completing a forwarded request takes it out of its backend's holders and no other's. */
  lemma HoldersComplete(reqs: map<nat, Stage>, req: nat, chosen: nat, id: nat)
    requires req in reqs && reqs[req] == Forwarded(chosen)
    ensures |Holders(reqs - {req}, id)| == |Holders(reqs, id)| - (if id == chosen then 1 else 0)
  {
    var after := Holders(reqs - {req}, id);
    if id == chosen {
      assert Holders(reqs, id) == after + {req};
    } else {
      assert after == Holders(reqs, id);
    }
  }

  // ---------------------------------------------------------------------------
  // The invariant
  // ---------------------------------------------------------------------------

  /** Startup establishes the invariant: no request is in flight and every counter is zero. */
  lemma StartupInv(urls: seq<string>, rawStrategy: string, verdict: nat -> Probe)
    ensures Inv(Startup(urls, rawStrategy, verdict))
  {
  }

  lemma ArriveInv(s: Proxy)
    requires Inv(s)
    ensures Inv(Step(s, Arrive))
  {
    var h := BooksHandler(s);
    if h.reply.Proxied? {
      var i := GetNextValidPeer(s.pool, s.strategy).peer.value;
      forall j | 0 <= j < |s.pool.backends|
        ensures h.proxy.pool.backends[j].conns == |Holders(h.proxy.requests, h.proxy.pool.backends[j].id)|
      {
        HoldersAttach(s.requests, s.nextRequest, s.pool.backends[i].id, s.pool.backends[j].id);
      }
    }
  }

  lemma DirectInv(s: Proxy, req: nat)
    requires Inv(s)
    ensures Inv(Step(s, Direct(req)))
  {
    if req in s.requests && s.requests[req].Attached? {
      var id := s.requests[req].backend;
      var r := Director(s, req);
      forall j | 0 <= j < |s.pool.backends|
        ensures r.pool.backends[j].conns == |Holders(r.requests, r.pool.backends[j].id)|
      {
        HoldersForward(s.requests, req, id, s.pool.backends[j].id);
      }
    }
  }

  lemma RespondInv(s: Proxy, req: nat)
    requires Inv(s)
    ensures Inv(Step(s, Respond(req)))
  {
    if req in s.requests && s.requests[req].Forwarded? {
      var id := s.requests[req].backend;
      var r := ModifyResponse(s, req);
      forall j | 0 <= j < |s.pool.backends|
        ensures r.pool.backends[j].conns == |Holders(r.requests, r.pool.backends[j].id)|
      {
        HoldersComplete(s.requests, req, id, s.pool.backends[j].id);
      }
    }
  }

  lemma FailInv(s: Proxy, req: nat, refused: bool)
    requires Inv(s)
    ensures Inv(Step(s, Fail(req, refused)))
  {
    if req in s.requests && s.requests[req].Forwarded? {
      var id := s.requests[req].backend;
      var r := ErrorHandler(s, req, refused);
      forall j | 0 <= j < |s.pool.backends|
        ensures r.pool.backends[j].conns == |Holders(r.requests, r.pool.backends[j].id)|
      {
        HoldersComplete(s.requests, req, id, s.pool.backends[j].id);
      }
    }
  }

  lemma AdminAddInv(s: Proxy, url: string)
    requires Inv(s)
    ensures Inv(Step(s, AdminAdd(url)))
  {
  }

  lemma AdminRemoveInv(s: Proxy, url: string)
    requires Inv(s)
    ensures Inv(Step(s, AdminRemove(url)))
  {
  }

  lemma HealthPassInv(s: Proxy, verdict: nat -> Probe)
    requires Inv(s)
    ensures Inv(Step(s, HealthPass(verdict)))
  {
  }

  /** Every event keeps the invariant. */
  lemma StepInv(s: Proxy, e: Event)
    requires Inv(s)
    ensures Inv(Step(s, e))
  {
    match e
    case Arrive => ArriveInv(s);
    case Direct(req) => DirectInv(s, req);
    case Respond(req) => RespondInv(s, req);
    case Fail(req, refused) => FailInv(s, req, refused);
    case AdminAdd(url) => AdminAddInv(s, url);
    case AdminRemove(url) => AdminRemoveInv(s, url);
    case HealthPass(verdict) => HealthPassInv(s, verdict);
  }

  lemma {:induction false} RunInv(s: Proxy, events: seq<Event>)
    requires Inv(s)
    ensures Inv(Run(s, events))
    decreases |events|
  {
    if |events| > 0 {
      StepInv(s, events[0]);
      RunInv(Step(s, events[0]), events[1..]);
    }
  }

  /**
   After startup and any interleaving of requests, responses, errors, admin
   changes and health checks, every backend's counter is the number of its
   forwarded, uncompleted requests, and so is never negative.
   */
  lemma CountersNeverNegative(urls: seq<string>, rawStrategy: string, verdict: nat -> Probe, events: seq<Event>)
    ensures var s := Run(Startup(urls, rawStrategy, verdict), events);
            forall j :: 0 <= j < |s.pool.backends| ==>
              s.pool.backends[j].conns == |Holders(s.requests, s.pool.backends[j].id)| >= 0
  {
    StartupInv(urls, rawStrategy, verdict);
    RunInv(Startup(urls, rawStrategy, verdict), events);
  }

  /** A decrement never takes a pool backend's counter below zero: it was at least one. */
  lemma DecrementFindsACount(s: Proxy, req: nat)
    requires Inv(s)
    requires req in s.requests && s.requests[req].Forwarded?
    ensures forall j :: 0 <= j < |s.pool.backends| && s.pool.backends[j].id == s.requests[req].backend ==>
              s.pool.backends[j].conns >= 1
  {
    forall j | 0 <= j < |s.pool.backends| && s.pool.backends[j].id == s.requests[req].backend
      ensures s.pool.backends[j].conns >= 1
    {
      assert req in Holders(s.requests, s.pool.backends[j].id);
    }
  }

  /** The events of one request served from arrival to completion with nothing interleaved. */
  function OneRequest(s: Proxy, failed: bool, refused: bool): seq<Event> {
    var req := s.nextRequest;
    [Arrive, Direct(req), if failed then Fail(req, refused) else Respond(req)]
  }

  lemma RunThree(s: Proxy, e0: Event, e1: Event, e2: Event)
    ensures Run(s, [e0, e1, e2]) == Step(Step(Step(s, e0), e1), e2)
  {
    var s1 := Step(s, e0);
    var s2 := Step(s1, e1);
    assert [e0, e1, e2][1..] == [e1, e2];
    assert [e1, e2][1..] == [e2];
    assert [e2][1..] == [];
    assert Run(s2, [e2]) == Run(Step(s2, e2), []);
    assert Run(s1, [e1, e2]) == Run(s2, [e2]);
  }

  /**
   `after` holds the same backends as `before`, in the same order, with the same
   counters; a backend whose object is in `demoted` is now dead, and every other
   backend keeps its liveness.
   */
  predicate CountsRestored(after: seq<Backend>, before: seq<Backend>, demoted: set<nat>) {
    && |after| == |before|
    && forall j :: 0 <= j < |before| ==>
         && after[j].conns == before[j].conns
         && after[j].id == before[j].id
         && after[j].url == before[j].url
         && after[j].alive == (before[j].alive && before[j].id !in demoted)
  }

  /**
   The Director and then the response or the error for a request that has a
   backend attached: the counter goes up and comes back down on the same
   backend, and the request completes.
   */
  lemma ForwardedNetsToZero(s: Proxy, req: nat, id: nat, failed: bool, refused: bool)
    requires req in s.requests && s.requests[req] == Attached(id)
    ensures var d := Director(s, req);
            var done := if failed then ErrorHandler(d, req, refused) else ModifyResponse(d, req);
            && done.requests == s.requests - {req}
            && CountsRestored(done.pool.backends, s.pool.backends, if failed && refused then {id} else {})
  {
    var d := Director(s, req);
    assert d.requests == s.requests[req := Forwarded(id)];
    assert d.requests - {req} == s.requests - {req};
  }

  /** Adding a fresh key to a map and dropping it again gives back the map. */
  lemma DropFreshKey(m: map<nat, Stage>, k: nat, v: Stage)
    requires k !in m
    ensures m[k := v] - {k} == m
  {
    assert forall x :: x in m[k := v] - {k} <==> x in m;
  }

  /**
   One request from arrival to completion, with nothing interleaved: when no
   backend is alive it is refused with 503 and the state is exactly as before;
   otherwise it is counted against the backend the handler chose and the
   response or the error takes exactly that count back. Apart from the cursor,
   only the chosen backend's liveness may differ, and only after a refused
   connection.
   */
  lemma RequestNetsToZero(s: Proxy, failed: bool, refused: bool)
    requires s.nextRequest !in s.requests
    ensures var done := Run(s, OneRequest(s, failed, refused));
            var sel := GetNextValidPeer(s.pool, s.strategy);
            && (sel.peer.None? ==> done == s)
            && (sel.peer.Some? ==>
                  var chosen := s.pool.backends[sel.peer.value].id;
                  && done.requests == s.requests
                  && CountsRestored(done.pool.backends, s.pool.backends, if failed && refused then {chosen} else {}))
  {
    var req := s.nextRequest;
    var last := if failed then Fail(req, refused) else Respond(req);
    RunThree(s, Arrive, Direct(req), last);
    var h := BooksHandler(s);
    var s1 := h.proxy;
    var s2 := Director(s1, req);
    var s3 := if failed then ErrorHandler(s2, req, refused) else ModifyResponse(s2, req);
    assert Step(Step(Step(s, Arrive), Direct(req)), last) == s3;
    if h.reply.Proxied? {
      var chosen := s.pool.backends[GetNextValidPeer(s.pool, s.strategy).peer.value].id;
      ForwardedNetsToZero(s1, req, chosen, failed, refused);
      DropFreshKey(s.requests, req, Attached(chosen));
    } else {
      assert s3 == s;
    }
  }

}
