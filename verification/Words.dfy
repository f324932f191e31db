/** Unsigned machine words as their bits: bit i of w is w[i], with weight 2^i. */
module Words {
  type Word = seq<bool>

  /** A byte. */
  type Octet = w: Word | |w| == 8 witness Zeros(8)

  function Zeros(n: nat): (r: Word)
    ensures |r| == n && forall i :: 0 <= i < n ==> !r[i]
  {
    seq(n, _ => false)
  }

  function Xor(x: Word, y: Word): (r: Word)
    requires |x| == |y|
    ensures |r| == |x| && forall i :: 0 <= i < |x| ==> r[i] == (x[i] != y[i])
  {
    seq(|x|, i requires 0 <= i < |x| => x[i] != y[i])
  }

  function Or(x: Word, y: Word): (r: Word)
    requires |x| == |y|
    ensures |r| == |x| && forall i :: 0 <= i < |x| ==> r[i] == (x[i] || y[i])
  {
    seq(|x|, i requires 0 <= i < |x| => x[i] || y[i])
  }

  function And(x: Word, y: Word): (r: Word)
    requires |x| == |y|
    ensures |r| == |x| && forall i :: 0 <= i < |x| ==> r[i] == (x[i] && y[i])
  {
    seq(|x|, i requires 0 <= i < |x| => x[i] && y[i])
  }

  function Not(x: Word): (r: Word)
    ensures |r| == |x| && forall i :: 0 <= i < |x| ==> r[i] == !x[i]
  {
    seq(|x|, i requires 0 <= i < |x| => !x[i])
  }

  /** `x << k`, the top k bits lost */
  function Shl(x: Word, k: nat): (r: Word)
    requires k <= |x|
    ensures |r| == |x|
  {
    Zeros(k) + x[..|x| - k]
  }

  /** `x >> k` */
  function Shr(x: Word, k: nat): (r: Word)
    requires k <= |x|
    ensures |r| == |x|
  {
    x[k..] + Zeros(k)
  }

  /** The n-bit word of value 1. */
  function One(n: nat): (r: Word)
    requires n > 0
    ensures |r| == n
  {
    [true] + Zeros(n - 1)
  }

  /** The value of a word. */
  function Val(x: Word): nat {
    if x == [] then 0 else (if x[0] then 1 else 0) + 2 * Val(x[1..])
  }

  /** The n low bits of a number. */
  function Bits(v: nat, n: nat): (r: Word)
    ensures |r| == n
    decreases n, v
  {
    if n == 0 then [] else [v % 2 == 1] + Bits(v / 2, n - 1)
  }

  function Pow2(n: nat): (r: nat)
    ensures r > 0
  {
    if n == 0 then 1 else 2 * Pow2(n - 1)
  }

  lemma {:induction false} ValBound(x: Word)
    ensures Val(x) < Pow2(|x|)
  {
    if x != [] {
      ValBound(x[1..]);
    }
  }

  lemma {:induction false} BitsOfVal(x: Word)
    ensures Bits(Val(x), |x|) == x
  {
    if x != [] {
      BitsOfVal(x[1..]);
      assert Val(x) / 2 == Val(x[1..]);
    }
  }

  lemma {:induction false} ValOfBits(v: nat, n: nat)
    requires v < Pow2(n)
    ensures Val(Bits(v, n)) == v
  {
    if n > 0 {
      ValOfBits(v / 2, n - 1);
      assert Bits(v, n)[1..] == Bits(v / 2, n - 1);
    }
  }

  lemma {:induction false} ValZero(x: Word)
    ensures Val(x) == 0 <==> forall i :: 0 <= i < |x| ==> !x[i]
  {
    if x != [] {
      ValZero(x[1..]);
      if forall i :: 0 <= i < |x[1..]| ==> !x[1..][i] {
        forall i | 1 <= i < |x| ensures x[i] == x[1..][i - 1] {
        }
      }
    }
  }
}
