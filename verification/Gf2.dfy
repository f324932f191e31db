/** Polynomials over GF(2). A polynomial is the set of the exponents whose coefficient is 1. */
module Gf2 {
  type Poly = set<nat>

  function Add(p: Poly, q: Poly): (r: Poly)
    ensures forall e :: e in r <==> (e in p) != (e in q)
  {
    (p - q) + (q - p)
  }

  /** p times x^k */
  function Shift(p: Poly, k: nat): (r: Poly)
    ensures forall e: nat :: e in r <==> e >= k && e - k in p
  {
    set e | e in p :: e + k
  }

  /** The polynomial whose coefficients are the given bits, highest first, times g. */
  function Times(bits: seq<bool>, g: Poly): Poly {
    if bits == [] then {}
    else
      Add(Shift(Times(bits[..|bits| - 1], g), 1), if bits[|bits| - 1] then g else {})
  }

  /** The polynomial whose coefficients are the given bits, highest first. */
  function OfBits(bits: seq<bool>): Poly {
    Times(bits, {0})
  }

  ghost predicate DegreeBelow(p: Poly, n: nat) {
    forall e :: e in p ==> e < n
  }

  /** r is what is left of p after division by g, a polynomial of degree n. */
  ghost predicate IsRemainder(p: Poly, g: Poly, n: nat, r: Poly) {
    DegreeBelow(r, n) && exists quotient :: p == Add(Times(quotient, g), r)
  }

  /** The exponent of the leading term of a product: the place of the first bit set. */
  lemma {:induction false} LeadingTerm(bits: seq<bool>, g: Poly, n: nat)
    requires n in g && DegreeBelow(g, n + 1)
    ensures Times(bits, g) == {} || exists e :: e in Times(bits, g) && e >= n
    ensures DegreeBelow(Times(bits, g), n + |bits|)
  {
    if bits != [] {
      var front := bits[..|bits| - 1];
      LeadingTerm(front, g, n);
      if Times(front, g) == {} {
        assert Shift(Times(front, g), 1) == {};
        assert Times(bits, g) == if bits[|bits| - 1] then g else {};
      } else {
        var e :| e in Times(front, g) && e >= n;
        assert e + 1 in Times(bits, g);
      }
    }
  }

  lemma {:induction false} TimesZeros(k: nat, bits: seq<bool>, g: Poly)
    ensures Times(seq(k, _ => false) + bits, g) == Times(bits, g)
  {
    var all := seq(k, _ => false) + bits;
    if bits != [] {
      assert all[..|all| - 1] == seq(k, _ => false) + bits[..|bits| - 1];
      TimesZeros(k, bits[..|bits| - 1], g);
    } else if k > 0 {
      assert all[..|all| - 1] == seq(k - 1, _ => false) + bits;
      TimesZeros(k - 1, bits, g);
      assert Shift({}, 1) == {};
    }
  }

  /** Multiplication distributes over the addition of equally long bit strings. */
  lemma {:induction false} TimesXor(a: seq<bool>, b: seq<bool>, g: Poly)
    requires |a| == |b|
    ensures Times(seq(|a|, i requires 0 <= i < |a| => a[i] != b[i]), g) == Add(Times(a, g), Times(b, g))
  {
    var c := seq(|a|, i requires 0 <= i < |a| => a[i] != b[i]);
    if a != [] {
      var n := |a| - 1;
      TimesXor(a[..n], b[..n], g);
      assert c[..n] == seq(n, i requires 0 <= i < n => a[..n][i] != b[..n][i]);
    }
  }

  /** Division has only one remainder. */
  lemma RemainderUnique(p: Poly, g: Poly, n: nat, r1: Poly, r2: Poly)
    requires n in g && DegreeBelow(g, n + 1)
    requires IsRemainder(p, g, n, r1) && IsRemainder(p, g, n, r2)
    ensures r1 == r2
  {
    var q1 :| p == Add(Times(q1, g), r1);
    var q2 :| p == Add(Times(q2, g), r2);
    var a, b := seq(|q2|, _ => false) + q1, seq(|q1|, _ => false) + q2;
    TimesZeros(|q2|, q1, g);
    TimesZeros(|q1|, q2, g);
    TimesXor(a, b, g);
    var c := seq(|a|, i requires 0 <= i < |a| => a[i] != b[i]);
    LeadingTerm(c, g, n);
    assert Times(c, g) == Add(r1, r2) by {
      forall e: nat ensures e in Times(c, g) <==> e in Add(r1, r2) {
        assert e in p <==> (e in Times(q1, g)) != (e in r1);
        assert e in p <==> (e in Times(q2, g)) != (e in r2);
      }
    }
    assert forall h :: h in Times(c, g) ==> h < n;
    assert forall e :: e !in Add(r1, r2);
  }
}
