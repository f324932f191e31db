/** What a CRC-32 has to be: the checksum of the `cksum` utility (POSIX.1-2017, IEEE Std 1003.1,
    Shell & Utilities, section 4, "cksum"). */
module CrcStandard {
  import opened Words
  import opened Gf2
  import opened CrcLinear
  import opened CrcSteps

  /** The length of a file, least significant octet first, in as few octets as it takes. */
  function LengthOctets(n: nat): seq<Octet> {
    if n == 0 then [] else [Bits(n, 8)] + LengthOctets(n / 256)
  }

  function ValueOf(octets: seq<Octet>): nat {
    if octets == [] then 0 else Val(octets[0]) + 256 * ValueOf(octets[1..])
  }

  lemma OctetIndex(o: Octet)
    ensures Val(o) < 256 && Bits(Val(o), 8) == o
  {
    ValBound(o);
    BitsOfVal(o);
    assert Pow2(8) == 256;
  }

  lemma {:induction false} LowBits(v: nat, q: nat, n: nat)
    ensures Bits(v + q * Pow2(n), n) == Bits(v, n)
    decreases n
  {
    if n > 0 {
      var w := v + q * Pow2(n);
      assert q * Pow2(n) == 2 * (q * Pow2(n - 1));
      LowBits(v / 2, q, n - 1);
      assert w / 2 == v / 2 + q * Pow2(n - 1) && w % 2 == v % 2;
    }
  }

  /** The length octets are a faithful and shortest form of the length. */
  lemma {:induction false} LengthRoundTrip(n: nat)
    ensures ValueOf(LengthOctets(n)) == n
    ensures n > 0 ==> |LengthOctets(n)| > 0 && Val(LengthOctets(n)[|LengthOctets(n)| - 1]) != 0
  {
    if n > 0 {
      LowOctetValue(n);
      LengthRoundTrip(n / 256);
    }
  }

  lemma LowOctetValue(n: nat)
    ensures Val(Bits(n, 8)) == n % 256
  {
    assert Pow2(8) == 256;
    assert n % 256 + n / 256 * Pow2(8) == n;
    LowBits(n % 256, n / 256, 8);
    ValOfBits(n % 256, 8);
  }

  /** What is divided: the octets of the file followed by those of its length. */
  function Message(data: seq<Octet>, length: nat): seq<Octet> {
    data + LengthOctets(length)
  }

  /** r is the complement of the remainder of the message times x^32 modulo G(x). */
  ghost predicate IsCksum(data: seq<Octet>, r: Crc) {
    IsRemainder(Shift(OfBits(MessageBits(Message(data, |data|))), 32), GENERATOR, 32, OfRegister(Not(r)))
  }

  /** The standard leaves no choice. */
  lemma CksumUnique(data: seq<Octet>, r1: Crc, r2: Crc)
    requires IsCksum(data, r1) && IsCksum(data, r2)
    ensures r1 == r2
  {
    GeneratorDegree();
    RegisterUnique(Shift(OfBits(MessageBits(Message(data, |data|))), 32), GENERATOR, r1, r2);
  }

  lemma GeneratorDegree()
    ensures 32 in GENERATOR && DegreeBelow(GENERATOR, 33)
  {
  }

  lemma RegisterUnique(p: Poly, g: Poly, r1: Crc, r2: Crc)
    requires 32 in g && DegreeBelow(g, 33)
    requires IsRemainder(p, g, 32, OfRegister(Not(r1))) && IsRemainder(p, g, 32, OfRegister(Not(r2)))
    ensures r1 == r2
  {
    RemainderUnique(p, g, 32, OfRegister(Not(r1)), OfRegister(Not(r2)));
    forall i: nat | i < 32 ensures r1[i] == r2[i] {
      assert i in OfRegister(Not(r1)) <==> !r1[i];
      assert i in OfRegister(Not(r2)) <==> !r2[i];
    }
  }

  /** What the register makes of a file whose length was counted as `length`. */
  function Finished(data: seq<Octet>, length: nat): Crc {
    Not(BeFold(Message(data, length), Zeros(32)))
  }

  lemma FinishedIsCksum(data: seq<Octet>)
    ensures IsCksum(data, Finished(data, |data|))
  {
    FoldIsRemainder(Message(data, |data|));
    var r := BeFold(Message(data, |data|), Zeros(32));
    assert Not(Not(r)) == r;
  }

  /** "One or more octets" for the length of an empty file, or none: it makes no difference. */
  lemma EmptyFile()
    ensures Finished([], 0) == Not(BeFold([Zeros(8)], Zeros(32)))
  {
    NoOctets();
    OneZeroOctet();
  }

  lemma NoOctets()
    ensures BeFold(Message([], 0), Zeros(32)) == Zeros(32)
  {
  }

  lemma OneZeroOctet()
    ensures BeFold([Zeros(8)], Zeros(32)) == Zeros(32)
  {
    var z: Octet := Zeros(8);
    OctetIsEightBits(z, Zeros(32));
    ZeroBits(MsbFirst(z));
    assert [z][1..] == [];
  }

  lemma {:induction false} ZeroBits(bits: seq<bool>)
    requires forall i :: 0 <= i < |bits| ==> !bits[i]
    ensures BitFold(bits, Zeros(32)) == Zeros(32)
  {
    if bits != [] {
      assert BitStep(bits[0], Zeros(32)) == Zeros(32);
      ZeroBits(bits[1..]);
    }
  }
}
