/** The two-word bit mask (`cmask_t`), refined to the set of numbers whose bit is set. */
module ConsumerMask {
  import opened Words

  const WORDS: nat := 2
  const WORD_BITS: nat := 64
  const BITS: nat := 128

  /** `static_cast<uint64_t>(1) << bit_idx(index)` */
  function Flag(index: nat): (r: Word)
    ensures |r| == WORD_BITS && forall i :: 0 <= i < WORD_BITS ==> (r[i] <==> i == index % WORD_BITS)
  {
    Shl(One(WORD_BITS), index % WORD_BITS)
  }

  class Mask {
    const mask: array<Word>

    ghost predicate Valid()
      reads mask
    {
      mask.Length == WORDS && forall w :: 0 <= w < WORDS ==> |mask[w]| == WORD_BITS
    }

    ghost predicate Has(n: nat)
      requires Valid() && n < BITS
      reads mask
    {
      mask[n / WORD_BITS][n % WORD_BITS]
    }

    /** The numbers whose bit is set. */
    ghost function Members(): (s: set<nat>)
      requires Valid()
      reads mask
    {
      set n: nat | n < BITS && Has(n)
    }

    constructor ()
      ensures Valid() && fresh(mask) && Members() == {}
    {
      mask := new Word[WORDS](_ => Zeros(WORD_BITS));
    }

    method Get(index: nat) returns (r: bool)
      requires Valid() && index < BITS
      ensures r <==> index in Members()
    {
      var x := And(mask[index / WORD_BITS], Flag(index));
      r := Val(x) != 0;
      ValZero(x);
      assert x[index % WORD_BITS] == mask[index / WORD_BITS][index % WORD_BITS];
    }

    method Set(index: nat)
      requires Valid() && index < BITS
      modifies mask
      ensures Valid() && Members() == old(Members()) + {index}
    {
      mask[index / WORD_BITS] := Or(mask[index / WORD_BITS], Flag(index));
      assert forall n: nat :: n < BITS ==> (Has(n) <==> old(Has(n)) || n == index);
    }

    method Clear(index: nat)
      requires Valid() && index < BITS
      modifies mask
      ensures Valid() && Members() == old(Members()) - {index}
    {
      mask[index / WORD_BITS] := And(mask[index / WORD_BITS], Not(Flag(index)));
      assert forall n: nat :: n < BITS ==> (Has(n) <==> old(Has(n)) && n != index);
    }

    method ClearAll()
      requires Valid()
      modifies mask
      ensures Valid() && Members() == {}
    {
      for i := 0 to WORDS
        invariant forall w :: 0 <= w < WORDS ==> |mask[w]| == WORD_BITS
        invariant forall w :: 0 <= w < i ==> mask[w] == Zeros(WORD_BITS)
      {
        mask[i] := Zeros(WORD_BITS);
      }
    }

    method Empty() returns (r: bool)
      requires Valid()
      ensures r <==> Members() == {}
    {
      var val := Zeros(WORD_BITS);
      for i := 0 to WORDS
        invariant |val| == WORD_BITS
        invariant forall b :: 0 <= b < WORD_BITS ==> (val[b] <==> exists w :: 0 <= w < i && mask[w][b])
      {
        val := Or(val, mask[i]);
      }
      r := Val(val) == 0;
      ValZero(val);
      if n: nat :| n in Members() {
        assert val[n % WORD_BITS];
      }
      if b :| 0 <= b < WORD_BITS && val[b] {
        var w :| 0 <= w < WORDS && mask[w][b];
        assert Has(w * WORD_BITS + b);
        assert w * WORD_BITS + b in Members();
      }
    }

    /** The set difference, in a new mask. */
    method DifferenceWith(other: Mask) returns (result: Mask)
      requires Valid() && other.Valid()
      ensures result.Valid() && fresh(result) && fresh(result.mask)
      ensures result.Members() == Members() - other.Members()
    {
      result := new Mask();
      for i := 0 to WORDS
        invariant result.Valid()
        invariant forall w :: 0 <= w < i ==> result.mask[w] == And(mask[w], Not(other.mask[w]))
      {
        result.mask[i] := And(mask[i], Not(other.mask[i]));
      }
      assert forall n: nat :: n < BITS ==> (result.Has(n) <==> Has(n) && !other.Has(n));
    }
  }
}
