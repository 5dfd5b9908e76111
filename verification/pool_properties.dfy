/**
 Properties of the backend pool that relate several calls: the selection rules
 pin down a unique backend, round-robin reaches every alive backend, removal
 undoes an addition, liveness writes and health-check passes are idempotent and
 are what selection and the snapshot then see, and no sequence of operations
 breaks the cursor invariant or the membership count.
 */
module PoolProperties {
  import opened Options
  import opened Backends
  import opened Cyclic
  import opened ServerPool

  // ---------------------------------------------------------------------------
  // Selection
  // ---------------------------------------------------------------------------

  /** On an empty pool selection returns none and leaves the pool as it was, under every strategy. */
  lemma SelectOnEmptyPool(p: Pool, strategy: string)
    requires |p.backends| == 0
    ensures GetNextValidPeer(p, strategy) == Selection(p, None)
  {
  }

  /** At most one backend satisfies the round-robin rule, so the rule determines the choice. */
  lemma RoundRobinPickUnique(bs: seq<Backend>, start: nat, i1: nat, i2: nat)
    requires RoundRobinPick(bs, start, i1) && RoundRobinPick(bs, start, i2)
    ensures i1 == i2
  {
  }

  /** At most one backend satisfies the least-connections rule: ties go to the earliest. */
  lemma LeastLoadedPickUnique(bs: seq<Backend>, i1: nat, i2: nat)
    requires LeastLoadedPick(bs, i1) && LeastLoadedPick(bs, i2)
    ensures i1 == i2
  {
  }

  /**
   With every backend alive and the cursor in range, round-robin picks the
   backend under the cursor and moves the cursor one step, wrapping at the end.
   */
  lemma AllAliveRoundRobin(p: Pool, strategy: string)
    requires 0 < |p.backends| && CursorOk(p) && !IsLeastConnections(strategy)
    requires forall j :: 0 <= j < |p.backends| ==> p.backends[j].alive
    ensures GetNextValidPeer(p, strategy).peer == Some(p.current)
    ensures GetNextValidPeer(p, strategy).pool.current == (p.current + 1) % |p.backends|
  {
    var r := GetNextValidPeer(p, strategy);
    SlotZero(p.current, |p.backends|);
    assert p.backends[Slot(p.current, 0, |p.backends|)].alive;
    RoundRobinPickUnique(p.backends, p.current, r.peer.value, p.current);
  }

  /** The pool after `m` successive round-robin selections. */
  function Rotate(p: Pool, m: nat): (r: Pool)
    requires 0 < |p.backends|
    ensures r.backends == p.backends
    decreases m
  {
    if m == 0 then p else Rotate(RoundRobin(p).pool, m - 1)
  }

  /**
   An alive backend `t` slots ahead of the cursor is picked by one of the next
   `t + 1` round-robin selections; `m` is how many selections come before it.
   */
  lemma {:induction false} ReachedWithin(p: Pool, j: nat, t: nat) returns (m: nat)
    requires 0 < |p.backends| && j < |p.backends| && p.backends[j].alive
    requires t < |p.backends| && Slot(p.current, t, |p.backends|) == j
    ensures m <= t && RoundRobin(Rotate(p, m)).peer == Some(j)
    decreases t
  {
    var n := |p.backends|;
    var sel := RoundRobin(p);
    var i := sel.peer.value;
    if i == j {
      m := 0;
    } else {
      var ti: nat :| ti < n && Slot(p.current, ti, n) == i
                     && forall k :: 0 <= k < ti ==> !p.backends[Slot(p.current, k, n)].alive;
      assert ti != t;
      SlotAfter(p.current, ti, t - ti - 1, n);
      var m' := ReachedWithin(sel.pool, j, t - ti - 1);
      m := m' + 1;
    }
  }

  /**
   Round-robin fairness: while liveness does not change, every alive backend is
   picked within `n` successive selections, wherever the cursor starts.
   */
  lemma RoundRobinFair(p: Pool, j: nat) returns (m: nat)
    requires j < |p.backends| && p.backends[j].alive
    ensures m < |p.backends| && RoundRobin(Rotate(p, m)).peer == Some(j)
  {
    var t := SlotCovers(p.current, |p.backends|, j);
    m := ReachedWithin(p, j, t);
  }

  /** Backends A, B, C with B dead and the cursor at A: round-robin answers A, C, A. */
  lemma RoundRobinSkipsDead(a: Backend, b: Backend, c: Backend)
    requires a.alive && !b.alive && c.alive
    ensures var p0 := Pool([a, b, c], 0);
            var s1 := GetNextValidPeer(p0, "round-robin");
            var s2 := GetNextValidPeer(s1.pool, "round-robin");
            var s3 := GetNextValidPeer(s2.pool, "round-robin");
            s1.peer == Some(0) && s2.peer == Some(2) && s3.peer == Some(0)
  {
    var p0 := Pool([a, b, c], 0);
    var s1 := GetNextValidPeer(p0, "round-robin");
    RoundRobinPickUnique(p0.backends, 0, s1.peer.value, 0) by {
      SlotZero(0, 3);
    }
    var s2 := GetNextValidPeer(s1.pool, "round-robin");
    RoundRobinPickUnique(p0.backends, 1, s2.peer.value, 2) by {
      SlotZero(1, 3);
      SlotStep(1, 0, 3);
    }
    var s3 := GetNextValidPeer(s2.pool, "round-robin");
    RoundRobinPickUnique(p0.backends, 0, s3.peer.value, 0) by {
      SlotZero(0, 3);
    }
  }

  /** Counts A=3, B=1, C=1, all alive: least-connections picks B; once B has 2, it picks C. */
  lemma LeastConnectionsTies(a: Backend, b: Backend, c: Backend)
    requires a.alive && b.alive && c.alive
    requires a.conns == 3 && b.conns == 1 && c.conns == 1
    ensures GetNextValidPeer(Pool([a, b, c], 0), "least-connections").peer == Some(1)
    ensures GetNextValidPeer(Pool([a, b.(conns := 2), c], 0), "least").peer == Some(2)
  {
    var r1 := GetNextValidPeer(Pool([a, b, c], 0), "least-connections");
    LeastLoadedPickUnique([a, b, c], r1.peer.value, 1);
    var bs := [a, b.(conns := 2), c];
    var r2 := GetNextValidPeer(Pool(bs, 0), "least");
    LeastLoadedPickUnique(bs, r2.peer.value, 2);
  }

  // ---------------------------------------------------------------------------
  // Membership
  // ---------------------------------------------------------------------------

  /**
   Adding a backend whose URL is not yet in the pool and then removing that URL
   gives back the original pool and reports a removal.
   */
  lemma AddThenRemove(p: Pool, b: Backend)
    requires CursorOk(p)
    requires forall j :: 0 <= j < |p.backends| ==> p.backends[j].url != b.url
    ensures RemoveBackend(AddBackend(p, b), b.url) == Removal(p, true)
  {
  }

  /** Removal takes out exactly one backend, the first match; every other backend stays. */
  lemma RemoveTakesFirstMatch(p: Pool, url: string, i: nat)
    requires FirstWithUrl(p.backends, url, i)
    ensures RemoveBackend(p, url).removed
    ensures multiset(RemoveBackend(p, url).pool.backends) + multiset{p.backends[i]} == multiset(p.backends)
  {
    assert FindUrl(p.backends, url, 0) == Some(i);
    var bs := p.backends;
    assert bs == bs[..i] + [bs[i]] + bs[i + 1..];
    calc {
      multiset(bs);
      multiset(bs[..i] + [bs[i]] + bs[i + 1..]);
      multiset(bs[..i]) + multiset{bs[i]} + multiset(bs[i + 1..]);
      multiset(bs[..i] + bs[i + 1..]) + multiset{bs[i]};
    }
  }

  // ---------------------------------------------------------------------------
  // Liveness
  // ---------------------------------------------------------------------------

  /** Setting the same liveness twice is the same as setting it once. */
  lemma SetBackendStatusIdempotent(p: Pool, url: string, alive: bool)
    ensures SetBackendStatus(SetBackendStatus(p, url, alive), url, alive) == SetBackendStatus(p, url, alive)
  {
  }

  /** A backend marked dead is not chosen by the next selection, under either strategy. */
  lemma MarkedDeadNotSelected(p: Pool, url: string, i: nat, strategy: string)
    requires FirstWithUrl(p.backends, url, i)
    ensures GetNextValidPeer(SetBackendStatus(p, url, false), strategy).peer != Some(i)
  {
  }

  /** Running the same probe outcomes through a second pass changes nothing. */
  lemma CheckHealthIdempotent(p: Pool, probes: seq<Probe>)
    requires |probes| == |p.backends|
    ensures CheckHealth(CheckHealth(p, probes), probes) == CheckHealth(p, probes)
  {
  }

  /**
   After a health-check pass, selection picks only a backend whose probe
   succeeded, and answers none exactly when no probe succeeded.
   */
  lemma SelectAfterCheckHealth(p: Pool, probes: seq<Probe>, strategy: string)
    requires |probes| == |p.backends|
    ensures var r := GetNextValidPeer(CheckHealth(p, probes), strategy);
            && (r.peer.Some? ==> ProbeVerdict(probes[r.peer.value]))
            && (r.peer.None? <==> forall i :: 0 <= i < |probes| ==> !ProbeVerdict(probes[i]))
  {
  }

  /**
   The snapshot and selection agree: selection answers none exactly when the
   snapshot lists no alive backend, and the chosen backend's entry is alive.
   */
  lemma SnapshotAgreesWithSelection(p: Pool, strategy: string)
    ensures var r := GetNextValidPeer(p, strategy);
            var s := Snapshot(p);
            && (r.peer.None? <==> forall i :: 0 <= i < |s| ==> !s[i].alive)
            && (r.peer.Some? ==> s[r.peer.value].alive && s[r.peer.value].url == p.backends[r.peer.value].url)
  {
  }

  // ---------------------------------------------------------------------------
  // Sequences of operations
  // ---------------------------------------------------------------------------

  /**
   One pool operation. `Health` carries the probe outcome for each position of
   the copied member list.
   */
  datatype PoolOp =
    | Select(strategy: string)
    | Add(backend: Backend)
    | Remove(url: string)
    | SetStatus(url: string, alive: bool)
    | Health(verdict: nat -> Probe)

  /** The pool after `ops`, with the number of additions and of removals that found a match. */
  datatype Tally = Tally(pool: Pool, adds: nat, removals: nat)

  function AddCount(ops: seq<PoolOp>): nat {
    if |ops| == 0 then 0 else (if ops[0].Add? then 1 else 0) + AddCount(ops[1..])
  }

  function RemoveCount(ops: seq<PoolOp>): nat {
    if |ops| == 0 then 0 else (if ops[0].Remove? then 1 else 0) + RemoveCount(ops[1..])
  }

  /**
   Apply `ops` in order. The membership count is the starting count plus the
   additions minus the successful removals, every addition counts, no more
   removals succeed than were asked for, and the cursor invariant survives.
   */
  function RunOps(p: Pool, ops: seq<PoolOp>): (r: Tally)
    ensures |r.pool.backends| + r.removals == |p.backends| + r.adds
    ensures r.adds == AddCount(ops) && r.removals <= RemoveCount(ops)
    ensures CursorOk(p) ==> CursorOk(r.pool)
    decreases |ops|
  {
    if |ops| == 0 then Tally(p, 0, 0)
    else
      var rest := ops[1..];
      match ops[0]
      case Select(s) => RunOps(GetNextValidPeer(p, s).pool, rest)
      case Add(b) =>
        var t := RunOps(AddBackend(p, b), rest);
        Tally(t.pool, t.adds + 1, t.removals)
      case Remove(url) =>
        var rm := RemoveBackend(p, url);
        var t := RunOps(rm.pool, rest);
        if rm.removed then Tally(t.pool, t.adds, t.removals + 1) else t
      case SetStatus(url, alive) => RunOps(SetBackendStatus(p, url, alive), rest)
      case Health(v) => RunOps(CheckHealth(p, Probes(p, v)), rest)
  }

}
