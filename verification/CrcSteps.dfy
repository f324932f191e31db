/** The CRC-32 of the POSIX `cksum` utility, one bit and one octet at a time and in both byte orders. */
module CrcSteps {
  import opened Words
  import opened Gf2
  import opened CrcLinear

  /** G(x), of degree 32. */
  const GENERATOR: Poly := {0, 1, 2, 4, 5, 7, 8, 10, 11, 12, 16, 22, 23, 26, 32}

  /** 0x04c11db7: G(x) without its leading term. */
  function LowTerms(): (r: Crc)
    ensures forall i :: 0 <= i < 32 ==> (r[i] <==> i in GENERATOR)
  {
    seq(32, i => i in GENERATOR)
  }

  /** One shift of the division register. */
  function Step(c: Crc): Crc {
    Xor(Shl(c, 1), if c[31] then LowTerms() else Zeros(32))
  }

  /** crctab[i]: eight shifts of `i << 24` */
  function Entry(i: Octet): Crc {
    Feeds(Step, Zeros(24) + i, |i|)
  }

  /** crc32_1byte, big endian: `(crc << 8) ^ crctab[((crc >> 24) ^ data) & 0xFF]` */
  function BeByte(data: Octet, crc: Crc): Crc {
    Xor(Shl(crc, 8), Entry(Xor(crc[24..], data)))
  }

  /** rev_int4u: the four octets of a word in the opposite order. */
  function Rev(c: Crc): (r: Crc) {
    c[24..] + c[16..24] + c[8..16] + c[..8]
  }

  /** crc32_1byte, little endian: `(crc >> 8) ^ crctab_8byte[0][(crc ^ data) & 0xFF]` */
  function LeByte(data: Octet, crc: Crc): Crc {
    Xor(Shr(crc, 8), Rev(Entry(Xor(crc[..8], data))))
  }

  /** The byte-at-a-time checksum, big endian. */
  function BeFold(data: seq<Octet>, crc: Crc): Crc {
    if data == [] then crc else BeFold(data[1..], BeByte(data[0], crc))
  }

  /** The byte-at-a-time checksum, little endian. */
  function LeFold(data: seq<Octet>, crc: Crc): Crc {
    if data == [] then crc else LeFold(data[1..], LeByte(data[0], crc))
  }

  lemma {:induction false} LeFoldConcat(a: seq<Octet>, b: seq<Octet>, crc: Crc)
    ensures LeFold(a + b, crc) == LeFold(b, LeFold(a, crc))
  {
    if a == [] {
      assert a + b == b;
    } else {
      assert (a + b)[1..] == a[1..] + b;
      LeFoldConcat(a[1..], b, LeByte(a[0], crc));
    }
  }

  // ---- byte order -------------------------------------------------------------------------

  lemma RevXor(x: Crc, y: Crc)
    ensures Rev(Xor(x, y)) == Xor(Rev(x), Rev(y))
  {
  }

  lemma RevRev(x: Crc)
    ensures Rev(Rev(x)) == x
  {
    var r := Rev(x);
    assert r[24..] == x[..8] && r[16..24] == x[8..16] && r[8..16] == x[16..24] && r[..8] == x[24..];
  }

  lemma RevShl(x: Crc)
    ensures Rev(Shl(x, 8)) == Shr(Rev(x), 8)
    ensures Rev(x)[..8] == x[24..]
  {
    var u := Shl(x, 8);
    assert u[24..] == x[16..24] && u[16..24] == x[8..16] && u[8..16] == x[..8] && u[..8] == Zeros(8);
  }

  /** One octet keeps the little-endian register the byte reverse of the big-endian one. */
  lemma ByteOrder(data: Octet, crc: Crc)
    ensures LeByte(data, Rev(crc)) == Rev(BeByte(data, crc))
  {
    RevShl(crc);
    RevXor(Shl(crc, 8), Entry(Xor(crc[24..], data)));
  }

  /** So do any number of octets. */
  lemma {:induction false} FoldOrder(data: seq<Octet>, crc: Crc)
    ensures LeFold(data, Rev(crc)) == Rev(BeFold(data, crc))
  {
    if data != [] {
      ByteOrder(data[0], crc);
      FoldOrder(data[1..], BeByte(data[0], crc));
    }
  }

  // ---- one octet is eight bits ------------------------------------------------------------

  /** The division register after one more bit of the message. */
  function BitStep(bit: bool, crc: Crc): Crc {
    Step(Xor(crc, TopBit(bit)))
  }

  function BitFold(bits: seq<bool>, crc: Crc): Crc {
    AbsorbBits(Step, bits, crc)
  }

  /** The bits of an octet, most significant first. */
  function MsbFirst(o: Octet): (r: seq<bool>)
    ensures |r| == 8 && forall i :: 0 <= i < 8 ==> r[i] == o[7 - i]
  {
    seq(8, i requires 0 <= i < 8 => o[7 - i])
  }

  /** One shift of a division register whose polynomial has the low terms `low`. */
  function StepWith(low: Crc, c: Crc): Crc {
    Xor(Shl(c, 1), if c[31] then low else Zeros(32))
  }

  lemma StepWithXor(low: Crc, x: Crc, y: Crc)
    ensures StepWith(low, Xor(x, y)) == Xor(StepWith(low, x), StepWith(low, y))
  {
  }

  lemma StepXor()
    ensures Additive(Step)
  {
    forall x: Crc, y: Crc ensures Step(Xor(x, y)) == Xor(Step(x), Step(y)) {
      StepWithXor(LowTerms(), x, y);
    }
  }

  lemma StepOnlyShifts()
    ensures OnlyShifts(Step)
  {
    forall x: Crc | !x[31] ensures Step(x) == [false] + x[..31] {
      XorZeros(Shl(x, 1));
      assert Zeros(1) == [false];
    }
  }

  lemma XorZeros(x: Crc)
    ensures Xor(x, Zeros(32)) == x
  {
  }

  lemma OctetAtTop(data: Octet, crc: Crc)
    ensures Xor(crc, AtTop(MsbFirst(data))) == Xor(crc[..24] + Zeros(8), Zeros(24) + Xor(crc[24..], data))
  {
    assert AtTop(MsbFirst(data)) == Zeros(24) + data;
  }

  /** The table-driven update by one octet is eight bit steps. */
  lemma OctetIsEightBits(data: Octet, crc: Crc)
    ensures BitFold(MsbFirst(data), crc) == BeByte(data, crc)
  {
    StepXor();
    StepOnlyShifts();
    GatherBits(Step, MsbFirst(data), crc);
    OctetAtTop(data, crc);
    EntrySplits(crc[..24], Xor(crc[24..], data), |data|);
  }

  lemma EntrySplits(y: Word, top: Octet, k: nat)
    requires |y| == 24 && k == 8
    ensures Feeds(Step, Xor(y + Zeros(8), Zeros(24) + top), k) == Xor(Zeros(8) + y, Entry(top))
  {
    StepXor();
    FeedsXor(Step, y + Zeros(k), Zeros(24) + top, k);
    StepOnlyShifts();
    ShiftUp(Step, y, k);
  }

  // ---- bits are a polynomial division -----------------------------------------------------

  /** A message as one bit string, first octet first and most significant bits first. */
  function MessageBits(data: seq<Octet>): seq<bool> {
    if data == [] then [] else MsbFirst(data[0]) + MessageBits(data[1..])
  }

  lemma {:induction false} FoldIsBits(data: seq<Octet>, crc: Crc)
    ensures BeFold(data, crc) == BitFold(MessageBits(data), crc)
  {
    if data != [] {
      AbsorbBitsConcat(Step, MsbFirst(data[0]), MessageBits(data[1..]), crc);
      OctetIsEightBits(data[0], crc);
      FoldIsBits(data[1..], BeByte(data[0], crc));
    }
  }

  /** The register read as a polynomial of degree below 32. */
  function OfRegister(c: Crc): (r: Poly)
    ensures forall i: nat :: i in r <==> i < 32 && c[i]
  {
    set i: nat | i < 32 && c[i]
  }

  /** The bits of `low` are the terms of g but the leading one. */
  ghost predicate LowTermsOf(low: Crc, g: Poly) {
    && 32 in g && (forall e :: e in g ==> e <= 32)
    && (forall e :: 0 <= e < 32 ==> (low[e] <==> e in g))
  }

  lemma GeneratorTerms()
    ensures LowTermsOf(LowTerms(), GENERATOR)
  {
  }

  lemma BitStepBits(bit: bool, c: Crc, low: Crc)
    ensures forall e :: 0 <= e < 32 ==>
      StepWith(low, Xor(c, TopBit(bit)))[e] == ((e >= 1 && c[e - 1]) != (c[31] != bit && low[e]))
  {
    var x: Crc := Xor(c, TopBit(bit));
    assert forall e :: 1 <= e < 32 ==> Shl(x, 1)[e] == c[e - 1];
  }

  /** The coefficients after one more bit. */
  lemma BitStepPoly(bit: bool, c: Crc, g: Poly, low: Crc)
    requires LowTermsOf(low, g)
    ensures forall e: nat :: e < 32 ==>
      (e in OfRegister(StepWith(low, Xor(c, TopBit(bit)))) <==>
        (e >= 1 && c[e - 1]) != (c[31] != bit && e in g))
  {
    BitStepBits(bit, c, low);
  }

  /** One step of a long division by g, of degree 32. */
  lemma DivisionStep(m: Poly, multiple: Poly, g: Poly, c: Crc, bit: bool, r: Poly)
    requires Shift(m, 32) == Add(multiple, OfRegister(c))
    requires 32 in g && (forall e :: e in g ==> e <= 32) && DegreeBelow(r, 32)
    requires forall e: nat :: e < 32 ==> (e in r <==> (e >= 1 && c[e - 1]) != (c[31] != bit && e in g))
    ensures Shift(Add(Shift(m, 1), if bit then {0} else {}), 32) ==
            Add(Add(Shift(multiple, 1), if c[31] != bit then g else {}), r)
  {
    var one: Poly := if bit then {0} else {};
    var h: Poly := if c[31] != bit then g else {};
    var left, right := Shift(Add(Shift(m, 1), one), 32), Add(Add(Shift(multiple, 1), h), r);
    forall e: nat ensures e in left <==> e in right {
      LeftTerm(m, one, e);
      RightTerm(multiple, h, r, e);
      if e > 0 {
        assert e - 1 in Shift(m, 32) <==> (e - 1 in multiple) != (e - 1 in OfRegister(c));
      }
    }
  }

  lemma LeftTerm(m: Poly, one: Poly, e: nat)
    requires forall i :: i in one ==> i == 0
    ensures e in Shift(Add(Shift(m, 1), one), 32) <==> ((e > 0 && e - 1 in Shift(m, 32)) != (e == 32 && 0 in one))
  {
    if e >= 32 {
      assert e - 32 in Shift(m, 1) <==> e > 32 && e - 33 in m;
    }
  }

  lemma RightTerm(multiple: Poly, h: Poly, r: Poly, e: nat)
    ensures e in Add(Add(Shift(multiple, 1), h), r) <==>
            ((e > 0 && e - 1 in multiple) != (e in h)) != (e in r)
  {
  }

  lemma BitFoldMore(front: seq<bool>, bit: bool, crc: Crc)
    ensures BitFold(front + [bit], crc) == BitStep(bit, BitFold(front, crc))
  {
    AbsorbBitsConcat(Step, front, [bit], crc);
    assert [bit][1..] == [];
  }

  lemma TimesMore(bits: seq<bool>, bit: bool, g: Poly)
    ensures Times(bits + [bit], g) == Add(Shift(Times(bits, g), 1), if bit then g else {})
  {
    assert (bits + [bit])[..|bits|] == bits;
  }

  /** One more bit of the message makes one more bit of the quotient. */
  lemma RemainderStep(front: seq<bool>, bit: bool, q: seq<bool>, g: Poly, low: Crc, c: Crc)
    requires LowTermsOf(low, g) && Shift(OfBits(front), 32) == Add(Times(q, g), OfRegister(c))
    ensures Shift(OfBits(front + [bit]), 32) ==
            Add(Times(q + [c[31] != bit], g), OfRegister(StepWith(low, Xor(c, TopBit(bit)))))
  {
    TimesMore(front, bit, {0});
    TimesMore(q, c[31] != bit, g);
    RegisterDivides(OfBits(front), OfBits(front + [bit]), Times(q, g), Times(q + [c[31] != bit], g), bit, g, low, c);
  }

  lemma RegisterDivides(m: Poly, m': Poly, multiple: Poly, multiple': Poly, bit: bool, g: Poly, low: Crc, c: Crc)
    requires LowTermsOf(low, g) && Shift(m, 32) == Add(multiple, OfRegister(c))
    requires m' == Add(Shift(m, 1), if bit then {0} else {})
    requires multiple' == Add(Shift(multiple, 1), if c[31] != bit then g else {})
    ensures Shift(m', 32) == Add(multiple', OfRegister(StepWith(low, Xor(c, TopBit(bit)))))
  {
    BitStepPoly(bit, c, g, low);
    DivisionStep(m, multiple, g, c, bit, OfRegister(StepWith(low, Xor(c, TopBit(bit)))));
  }

  lemma RegisterStep(front: seq<bool>, bit: bool, q: seq<bool>, g: Poly, c: Crc)
    requires g == GENERATOR && Shift(OfBits(front), 32) == Add(Times(q, g), OfRegister(c))
    ensures Shift(OfBits(front + [bit]), 32) == Add(Times(q + [c[31] != bit], g), OfRegister(BitStep(bit, c)))
  {
    GeneratorTerms();
    RemainderStep(front, bit, q, g, LowTerms(), c);
  }

  /** The register holds the remainder of the bits so far, multiplied by x^32, modulo G(x). */
  lemma {:induction false} RegisterIsRemainder(bits: seq<bool>, g: Poly) returns (quotient: seq<bool>)
    requires g == GENERATOR
    ensures Shift(OfBits(bits), 32) == Add(Times(quotient, g), OfRegister(BitFold(bits, Zeros(32))))
    decreases |bits|
  {
    if bits == [] {
      quotient := [];
      assert Shift({}, 32) == {};
    } else {
      var front, bit := bits[..|bits| - 1], bits[|bits| - 1];
      assert bits == front + [bit];
      var q := RegisterIsRemainder(front, g);
      var c := BitFold(front, Zeros(32));
      quotient := q + [c[31] != bit];
      BitFoldMore(front, bit, Zeros(32));
      RegisterStep(front, bit, q, g, c);
    }
  }

  /** The big-endian register is the remainder of the message times x^32 modulo G(x). */
  lemma FoldIsRemainder(data: seq<Octet>)
    ensures IsRemainder(Shift(OfBits(MessageBits(data)), 32), GENERATOR, 32, OfRegister(BeFold(data, Zeros(32))))
  {
    var q := RegisterIsRemainder(MessageBits(data), GENERATOR);
    FoldIsBits(data, Zeros(32));
  }
}
