/**
 Index arithmetic for the round-robin scan: the `t`-th slot visited from cursor
 `start` in a pool of `n` backends is `(start + t) % n`. The lemmas say how that
 slot advances and that the scan of `n` slots visits every index.
 */
module Cyclic {

  function Slot(start: nat, t: nat, n: nat): (r: nat)
    requires 0 < n
    ensures r < n
  {
    (start + t) % n
  }

  /** `x % n` is determined by any decomposition `x == q * n + r` with `0 <= r < n`. */
  lemma ModUnique(x: int, n: int, q: int, r: int)
    requires 0 < n && 0 <= r < n && x == q * n + r
    ensures x % n == r
  {
    var q', r' := x / n, x % n;
    assert x == q' * n + r';
    assert (q - q') * n == r' - r by {
      assert q * n - q' * n == (q - q') * n;
    }
    if q > q' {
      MulAtLeast(q - q', n);
    } else if q < q' {
      MulAtLeast(q' - q, n);
    }
  }

  lemma MulAtLeast(a: int, n: int)
    requires 1 <= a && 0 < n
    ensures a * n >= n
  {
  }

  /** A cursor that is already in range is the first slot visited. */
  lemma SlotZero(start: nat, n: nat)
    requires start < n
    ensures Slot(start, 0, n) == start
  {
  }

  /** Visiting one more slot moves one index forward, wrapping from `n - 1` to `0`. */
  lemma SlotStep(start: nat, t: nat, n: nat)
    requires 0 < n
    ensures Slot(start, t + 1, n) == if Slot(start, t, n) + 1 == n then 0 else Slot(start, t, n) + 1
  {
    var q, s := (start + t) / n, (start + t) % n;
    assert start + t == q * n + s;
    if s + 1 == n {
      ModUnique(start + t + 1, n, q + 1, 0);
    } else {
      ModUnique(start + t + 1, n, q, s + 1);
    }
  }

  /** Every index `j < n` is visited within the first `n` slots; `t` is the offset that reaches it. */
  lemma SlotCovers(start: nat, n: nat, j: nat) returns (t: nat)
    requires 0 < n && j < n
    ensures t < n && Slot(start, t, n) == j
  {
    var q, s := start / n, start % n;
    assert start == q * n + s;
    if s <= j {
      t := j - s;
      ModUnique(start + t, n, q, j);
    } else {
      t := j + n - s;
      ModUnique(start + t, n, q + 1, j);
    }
  }

  /** Reducing the left operand first does not change a sum's remainder. */
  lemma ModAddMod(x: nat, y: nat, n: nat)
    requires 0 < n
    ensures ((x % n) + y) % n == (x + y) % n
  {
    var q, s := x / n, x % n;
    assert x == q * n + s;
    var q2, s2 := (s + y) / n, (s + y) % n;
    assert s + y == q2 * n + s2;
    assert x + y == (q + q2) * n + s2;
    ModUnique(x + y, n, q + q2, s2);
  }

  /**
   Scanning `b` slots from the cursor just after the slot at offset `a` is the
   same as scanning `a + 1 + b` slots from the original cursor.
   */
  lemma SlotAfter(start: nat, a: nat, b: nat, n: nat)
    requires 0 < n
    ensures Slot((Slot(start, a, n) + 1) % n, b, n) == Slot(start, a + 1 + b, n)
  {
    var i := Slot(start, a, n);
    calc {
      Slot((i + 1) % n, b, n);
      ((i + 1) % n + b) % n;
      { ModAddMod(i + 1, b, n); }
      (i + 1 + b) % n;
      ((start + a) % n + (1 + b)) % n;
      { ModAddMod(start + a, 1 + b, n); }
      (start + a + (1 + b)) % n;
    }
  }

}
