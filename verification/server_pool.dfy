/**
 The backend pool of `serverPool/serverPool.go`: an ordered sequence of
 backends and a rotation cursor, with peer selection under the round-robin and
 least-connections strategies, membership changes, liveness changes, the status
 snapshot and the effect of one health-check pass. Every operation is a pure
 function from the old pool to the new one; the pool mutex is left out because
 each operation runs entirely inside it.
 */
module ServerPool {
  import opened Options
  import opened Backends
  import opened Cyclic

  /** `ServerPool`: the backends in order and the round-robin cursor `Current`. */
  datatype Pool = Pool(backends: seq<Backend>, current: nat)

  /** The result of `GetNextValidPeer`: the pool afterwards and the index of the chosen backend, if any. */
  datatype Selection = Selection(pool: Pool, peer: Option<nat>)

  /** The result of `RemoveBackend`: the pool afterwards and whether a backend was removed. */
  datatype Removal = Removal(pool: Pool, removed: bool)

  /** The cursor invariant: a valid index, or 0 (which covers the empty pool). */
  predicate CursorOk(p: Pool) {
    p.current < |p.backends| || p.current == 0
  }

  /** The strategy names that select least-connections; every other name means round-robin. */
  predicate IsLeastConnections(strategy: string) {
    strategy == "least-connections" || strategy == "least_conn" || strategy == "least"
  }

  predicate NoneAlive(bs: seq<Backend>) {
    forall j :: 0 <= j < |bs| ==> !bs[j].alive
  }

  /**
   `i` is the round-robin choice from cursor `start`: it is alive, and it is
   reached by scanning from the cursor with wrap-around past dead backends only.
   */
  predicate RoundRobinPick(bs: seq<Backend>, start: nat, i: nat) {
    && i < |bs|
    && bs[i].alive
    && exists t: nat :: 0 <= t < |bs| && Slot(start, t, |bs|) == i
                        && forall k :: 0 <= k < t ==> !bs[Slot(start, k, |bs|)].alive
  }

  /**
   `i` is the least-connections choice: alive, with a count no larger than any
   alive backend's, and strictly smaller than every alive backend before it.
   */
  predicate LeastLoadedPick(bs: seq<Backend>, i: nat) {
    && i < |bs|
    && bs[i].alive
    && (forall j :: 0 <= j < |bs| && bs[j].alive ==> bs[i].conns <= bs[j].conns)
    && (forall j :: 0 <= j < i && bs[j].alive ==> bs[i].conns < bs[j].conns)
  }

  /** `i` is the first backend whose URL string equals `url`. */
  predicate FirstWithUrl(bs: seq<Backend>, url: string, i: nat) {
    i < |bs| && bs[i].url == url && forall j :: 0 <= j < i ==> bs[j].url != url
  }

  /** The round-robin loop from iteration `t` on: the first offset whose slot holds an alive backend. */
  function FirstAlive(bs: seq<Backend>, start: nat, t: nat): (r: Option<nat>)
    requires 0 < |bs| && t <= |bs|
    ensures r.Some? ==> t <= r.value < |bs| && bs[Slot(start, r.value, |bs|)].alive
    ensures r.Some? ==> forall k :: t <= k < r.value ==> !bs[Slot(start, k, |bs|)].alive
    ensures r.None? ==> forall k :: t <= k < |bs| ==> !bs[Slot(start, k, |bs|)].alive
    decreases |bs| - t
  {
    if t == |bs| then None
    else if bs[Slot(start, t, |bs|)].alive then Some(t)
    else FirstAlive(bs, start, t + 1)
  }

  /** If no slot of a full scan is alive, no backend is alive. */
  lemma ScanCoversAll(bs: seq<Backend>, start: nat)
    requires 0 < |bs|
    requires forall k :: 0 <= k < |bs| ==> !bs[Slot(start, k, |bs|)].alive
    ensures NoneAlive(bs)
  {
    forall j | 0 <= j < |bs|
      ensures !bs[j].alive
    {
      var t := SlotCovers(start, |bs|, j);
    }
  }

  /** The default branch of `GetNextValidPeer` on a non-empty pool. */
  function RoundRobin(p: Pool): (r: Selection)
    requires 0 < |p.backends|
    ensures r.pool.backends == p.backends
    ensures r.peer.Some? ==> RoundRobinPick(p.backends, p.current, r.peer.value)
    ensures r.peer.Some? ==> r.pool.current == (r.peer.value + 1) % |p.backends|
    ensures r.peer.None? <==> NoneAlive(p.backends)
    ensures r.peer.None? ==> r.pool == p
  {
    var n := |p.backends|;
    match FirstAlive(p.backends, p.current, 0)
    case None =>
      ScanCoversAll(p.backends, p.current);
      Selection(p, None)
    case Some(t) =>
      var i := Slot(p.current, t, n);
      Selection(p.(current := (i + 1) % n), Some(i))
  }

  /**
   The least-connections loop from index `k` on, carrying the best candidate so
   far; a backend replaces it only with a strictly smaller count.
   */
  function LeastFrom(bs: seq<Backend>, k: nat, best: Option<nat>): (r: Option<nat>)
    requires k <= |bs|
    requires best.Some? ==> best.value < k && bs[best.value].alive
    requires best.Some? ==> forall j :: 0 <= j < k && bs[j].alive ==> bs[best.value].conns <= bs[j].conns
    requires best.Some? ==> forall j :: 0 <= j < best.value && bs[j].alive ==> bs[best.value].conns < bs[j].conns
    requires best.None? ==> forall j :: 0 <= j < k ==> !bs[j].alive
    ensures r.Some? ==> LeastLoadedPick(bs, r.value)
    ensures r.None? ==> NoneAlive(bs)
    decreases |bs| - k
  {
    if k == |bs| then best
    else if !bs[k].alive then LeastFrom(bs, k + 1, best)
    else if best.None? || bs[k].conns < bs[best.value].conns then LeastFrom(bs, k + 1, Some(k))
    else LeastFrom(bs, k + 1, best)
  }

  /** The least-connections branch of `GetNextValidPeer`. */
  function LeastConnections(bs: seq<Backend>): (r: Option<nat>)
    ensures r.Some? ==> LeastLoadedPick(bs, r.value)
    ensures r.None? <==> NoneAlive(bs)
  {
    LeastFrom(bs, 0, None)
  }

  /**
   `GetNextValidPeer`: none on an empty pool; least-connections for its three
   names, which never moves the cursor; round-robin for every other name.
   */
  function GetNextValidPeer(p: Pool, strategy: string): (r: Selection)
    ensures r.pool.backends == p.backends
    ensures r.peer.Some? ==> r.peer.value < |p.backends| && p.backends[r.peer.value].alive
    ensures r.peer.None? <==> NoneAlive(p.backends)
    ensures r.peer.None? ==> r.pool == p
    ensures IsLeastConnections(strategy) ==> r.pool == p
    ensures IsLeastConnections(strategy) && r.peer.Some? ==> LeastLoadedPick(p.backends, r.peer.value)
    ensures !IsLeastConnections(strategy) && r.peer.Some? ==>
              && RoundRobinPick(p.backends, p.current, r.peer.value)
              && r.pool.current == (r.peer.value + 1) % |p.backends|
    ensures CursorOk(p) ==> CursorOk(r.pool)
  {
    if |p.backends| == 0 then Selection(p, None)
    else if IsLeastConnections(strategy) then Selection(p, LeastConnections(p.backends))
    else RoundRobin(p)
  }

  /** `AddBackend`: append at the end, with no duplicate check. */
  function AddBackend(p: Pool, b: Backend): (r: Pool)
    ensures |r.backends| == |p.backends| + 1
    ensures r.backends[..|p.backends|] == p.backends && r.backends[|p.backends|] == b
    ensures r.current == p.current
    ensures CursorOk(p) ==> CursorOk(r)
  {
    Pool(p.backends + [b], p.current)
  }

  /** The loop shared by `RemoveBackend` and `SetBackendStatus`: the first index at or after `k` with URL `url`. */
  function FindUrl(bs: seq<Backend>, url: string, k: nat): (r: Option<nat>)
    requires k <= |bs|
    requires forall j :: 0 <= j < k ==> bs[j].url != url
    ensures r.Some? ==> FirstWithUrl(bs, url, r.value)
    ensures r.None? ==> forall j :: 0 <= j < |bs| ==> bs[j].url != url
    decreases |bs| - k
  {
    if k == |bs| then None
    else if bs[k].url == url then Some(k)
    else FindUrl(bs, url, k + 1)
  }

  /**
   `RemoveBackend`: drop the first backend with URL `url`, keeping the order of
   the rest, and reset the cursor to 0 if it no longer indexes the pool.
   */
  function RemoveBackend(p: Pool, url: string): (r: Removal)
    ensures r.removed <==> exists j :: 0 <= j < |p.backends| && p.backends[j].url == url
    ensures !r.removed ==> r.pool == p
    ensures r.removed ==> |r.pool.backends| == |p.backends| - 1
    ensures r.removed ==>
              exists i: nat :: && FirstWithUrl(p.backends, url, i)
                          && (forall j :: 0 <= j < i ==> r.pool.backends[j] == p.backends[j])
                          && (forall j :: i <= j < |r.pool.backends| ==> r.pool.backends[j] == p.backends[j + 1])
    ensures r.removed ==> r.pool.current == if p.current < |p.backends| - 1 then p.current else 0
    ensures r.removed ==> CursorOk(r.pool)
    ensures CursorOk(p) ==> CursorOk(r.pool)
  {
    match FindUrl(p.backends, url, 0)
    case None => Removal(p, false)
    case Some(i) =>
      var rest := p.backends[..i] + p.backends[i + 1..];
      Removal(Pool(rest, if p.current >= |rest| then 0 else p.current), true)
  }

  /**
   `SetBackendStatus`: set the liveness of the first backend with URL `url`;
   with no such backend the pool is unchanged.
   */
  function SetBackendStatus(p: Pool, url: string, alive: bool): (r: Pool)
    ensures r.current == p.current && |r.backends| == |p.backends|
    ensures forall j :: 0 <= j < |p.backends| ==> r.backends[j] == p.backends[j].(alive := r.backends[j].alive)
    ensures forall j :: 0 <= j < |p.backends| ==>
              r.backends[j].alive == if FirstWithUrl(p.backends, url, j) then alive else p.backends[j].alive
  {
    match FindUrl(p.backends, url, 0)
    case None => p
    case Some(i) => p.(backends := p.backends[i := SetAlive(p.backends[i], alive)])
  }

  function Status(b: Backend): BackendStatus {
    BackendStatus(b.url, b.alive, b.conns)
  }

  /** `Snapshot`: one status record per backend, in pool order. */
  function Snapshot(p: Pool): (r: seq<BackendStatus>)
    ensures |r| == |p.backends|
    ensures forall i :: 0 <= i < |r| ==>
              && r[i].url == p.backends[i].url
              && r[i].alive == p.backends[i].alive
              && r[i].currentConnections == p.backends[i].conns
  {
    seq(|p.backends|, i requires 0 <= i < |p.backends| => Status(p.backends[i]))
  }

  /**
   The effect of one `CheckHealth` pass: `probes[i]` is the outcome of probing
   the `i`-th backend of the copied list, and each backend's liveness becomes
   that outcome's verdict. Membership, order, counters and cursor are untouched.
   */
  function CheckHealth(p: Pool, probes: seq<Probe>): (r: Pool)
    requires |probes| == |p.backends|
    ensures r.current == p.current && |r.backends| == |p.backends|
    ensures forall i :: 0 <= i < |r.backends| ==>
              && r.backends[i].id == p.backends[i].id
              && r.backends[i].url == p.backends[i].url
              && r.backends[i].conns == p.backends[i].conns
    ensures forall i :: 0 <= i < |r.backends| ==>
              (r.backends[i].alive <==> !probes[i].transportError && 200 <= probes[i].status < 400)
  {
    Pool(seq(|p.backends|, i requires 0 <= i < |p.backends| => SetAlive(p.backends[i], ProbeVerdict(probes[i]))),
         p.current)
  }

  /** The probe vector of one pass, from the outcome for each position of the copied member list. */
  function Probes(p: Pool, verdict: nat -> Probe): (r: seq<Probe>)
    ensures |r| == |p.backends|
    ensures forall k :: 0 <= k < |r| ==> r[k] == verdict(k)
  {
    seq(|p.backends|, k requires 0 <= k < |p.backends| => verdict(k))
  }

}
