/** Arithmetic of ring indices: the source advances every index with `++i %= blocks`. */
module Ring {

  /** One `++i %= n` step. */
  function Succ(i: nat, n: nat): (r: nat)
    requires i < n
    ensures r < n
  {
    if i + 1 == n then 0 else i + 1
  }

  /** The slot that holds the p-th block ever stored in a ring of n slots. */
  function Idx(p: nat, n: nat): (r: nat)
    requires n > 0
    ensures r < n
  {
    if p == 0 then 0 else Succ(Idx(p - 1, n), n)
  }

  /** The position of the newest block stored in slot k once `total` blocks have been stored;
      negative when slot k has not been filled yet. */
  function Own(total: nat, n: nat, k: nat): (r: int)
    requires k < n
    ensures total - n <= r < total
  {
    total - Idx(total, n) + k - (if k < Idx(total, n) then 0 else n)
  }

  lemma SuccIsMod(i: nat, n: nat)
    requires i < n
    ensures Succ(i, n) == (i + 1) % n
  {
    if i + 1 < n {
      assert (i + 1) % n == i + 1;
    } else {
      assert n % n == 0;
    }
  }

  lemma {:induction false} IdxIsMod(p: nat, n: nat)
    requires n > 0
    ensures Idx(p, n) == p % n
  {
    if p == 0 {
    } else {
      IdxIsMod(p - 1, n);
      SuccIsMod((p - 1) % n, n);
      var q, r := (p - 1) / n, (p - 1) % n;
      assert p - 1 == q * n + r;
      if r + 1 < n {
        ModUnique(p, q, r + 1, n);
      } else {
        assert p == (q + 1) * n;
        ModUnique(p, q + 1, 0, n);
      }
    }
  }

  lemma ModUnique(x: nat, q: nat, r: nat, n: nat)
    requires n > 0 && r < n && x == q * n + r
    ensures x % n == r
  {
    var d := x / n - q;
    assert x == (x / n) * n + x % n;
    assert d * n == r - x % n by {
      assert (q + d) * n == q * n + d * n;
    }
    if d >= 1 {
      MulGe(d, n);
    } else if d <= -1 {
      MulGe(-d, n);
    }
  }

  lemma MulGe(d: nat, n: nat)
    requires d >= 1
    ensures d * n >= n
  {
    assert d * n == (d - 1) * n + n;
  }

  lemma MulSign(d: int, n: nat)
    ensures d >= 1 ==> d * n >= n
    ensures d <= -1 ==> d * n + n <= 0
  {
    assert d * n == (d - 1) * n + n;
    assert d * n == (d + 1) * n - n;
  }

  lemma {:induction false} IdxAdd(p: nat, d: nat, n: nat)
    requires n > 0 && d <= n
    ensures Idx(p + d, n) == if Idx(p, n) + d < n then Idx(p, n) + d else Idx(p, n) + d - n
  {
    if d > 0 {
      IdxAdd(p, d - 1, n);
      assert p + d - 1 == p + (d - 1);
    }
  }

  /** Storing one more block changes the owner of exactly one slot. */
  lemma OwnStep(total: nat, n: nat, k: nat)
    requires k < n
    ensures Own(total + 1, n, k) == if k == Idx(total, n) then total else Own(total, n, k)
  {
  }

  /** Every position still inside the ring owns its slot. */
  lemma OwnOfIdx(total: nat, n: nat, p: nat)
    requires n > 0 && total - n <= p < total
    ensures Own(total, n, Idx(p, n)) == p
  {
    IdxAdd(p, total - p, n);
  }

  lemma OwnIsSlot(total: nat, n: nat, k: nat)
    requires k < n && Own(total, n, k) >= 0
    ensures Idx(Own(total, n, k), n) == k
  {
    IdxAdd(Own(total, n, k), total - Own(total, n, k), n);
  }

  /** Two positions less than n apart never share a slot. */
  lemma IdxInjective(p: nat, q: nat, n: nat)
    requires n > 0 && Idx(p, n) == Idx(q, n) && p <= q < p + n
    ensures p == q
  {
    IdxAdd(p, q - p, n);
  }

  lemma SuccSuccIsMod(i: nat, n: nat)
    requires i < n
    ensures Succ(Succ(i, n), n) == (i + 2) % n
  {
    if i + 2 < n {
      ModUnique(i + 2, 0, i + 2, n);
    } else if n > 1 {
      ModUnique(i + 2, 1, i + 2 - n, n);
    } else {
      assert (i + 2) % n == 0;
    }
  }

  lemma SliceGrows<T>(x: seq<T>, a: nat, b: nat)
    requires a <= b < |x|
    ensures x[a..b + 1] == x[a..b] + [x[b]]
  {
  }
}
