/** What the 32-bit length of the checksum costs: for a length that has wrapped there is always data of that
    length whose checksum is not the standard one. */
module CrcWrap {
  import opened Words
  import opened CrcLinear
  import opened CrcSteps
  import opened CrcStandard
  import opened Crc32

  // ---- the division register can be run backwards ---------------------------------------------

  /** The register before a step: the lowest bit tells whether the top bit was set. */
  function UnStep(c: Crc): (r: Crc)
    ensures Step(r) == c
  {
    StepBack(c, LowTerms());
    Back(c, LowTerms())
  }

  function Back(c: Crc, low: Crc): (r: Crc) {
    var x := if c[0] then Xor(c, low) else c;
    x[1..] + [c[0]]
  }

  lemma StepBack(c: Crc, low: Crc)
    requires low[0]
    ensures StepWith(low, Back(c, low)) == c
  {
    var x := if c[0] then Xor(c, low) else c;
    var r := Back(c, low);
    assert Shl(r, 1) == x;
    assert forall i :: 0 <= i < 32 ==> StepWith(low, r)[i] == c[i];
  }

  /** Whatever the message bits, every register is reached from some register. */
  lemma {:induction false} Reached(bits: seq<bool>, y: Crc) returns (x: Crc)
    ensures BitFold(bits, x) == y
    decreases |bits|
  {
    if bits == [] {
      x := y;
    } else {
      var x1 := Reached(bits[1..], y);
      x := Xor(UnStep(x1), TopBit(bits[0]));
      assert Xor(x, TopBit(bits[0])) == UnStep(x1);
    }
  }

  lemma {:induction false} FedBack(y: Crc, k: nat) returns (x: Crc)
    ensures Feeds(Step, x, k) == y
  {
    if k == 0 {
      x := y;
    } else {
      var x1 := FedBack(y, k - 1);
      x := UnStep(x1);
    }
  }

  /** Four octets whose bits, most significant first, are given. */
  lemma FourOctets(bits: seq<bool>) returns (data: seq<Octet>)
    requires |bits| == 32
    ensures |data| == 4 && MessageBits(data) == bits
  {
    var a, b, c, d := OctetOf(bits[..8]), OctetOf(bits[8..16]), OctetOf(bits[16..24]), OctetOf(bits[24..]);
    data := [a, b, c, d];
    assert data[1..] == [b, c, d] && [b, c, d][1..] == [c, d] && [c, d][1..] == [d] && [d][1..] == [];
    assert MessageBits([d]) == MsbFirst(d);
    assert MessageBits([c, d]) == MsbFirst(c) + MessageBits([d]);
    assert MessageBits([b, c, d]) == MsbFirst(b) + MessageBits([c, d]);
  }

  function OctetOf(bits: seq<bool>): (o: Octet)
    requires |bits| == 8
    ensures MsbFirst(o) == bits
  {
    seq(8, i requires 0 <= i < 8 => bits[7 - i])
  }

  /** Four octets take the empty register anywhere. */
  lemma FourReach(y: Crc) returns (data: seq<Octet>)
    ensures |data| == 4 && BeFold(data, Zeros(32)) == y
  {
    var w := FedBack(y, 32);
    var bits := TopFirst(w);
    data := FourOctets(bits);
    FoldOfBits(bits);
    FoldIsBits(data, Zeros(32));
  }

  /** The bits of the register, most significant first. */
  function TopFirst(w: Crc): (bits: seq<bool>)
    ensures |bits| == 32 && AtTop(bits) == w
  {
    var bits := seq(32, i requires 0 <= i < 32 => w[31 - i]);
    assert forall i :: 0 <= i < 32 ==> AtTop(bits)[i] == w[i];
    bits
  }

  /** Up to 32 message bits, added to an empty register all at once. */
  lemma FoldOfBits(bits: seq<bool>)
    requires |bits| <= 32
    ensures BitFold(bits, Zeros(32)) == Feeds(Step, AtTop(bits), |bits|)
  {
    GatherSteps(bits, Zeros(32));
    ZeroXor(AtTop(bits));
  }

  lemma GatherSteps(bits: seq<bool>, x: Crc)
    requires |bits| <= 32
    ensures BitFold(bits, x) == Feeds(Step, Xor(x, AtTop(bits)), |bits|)
  {
    StepXor();
    StepOnlyShifts();
    GatherBits(Step, bits, x);
  }

  lemma ZeroXor(x: Crc)
    ensures Xor(Zeros(32), x) == x
  {
  }

  // ---- a few octets never leave the register empty ---------------------------------------------

  lemma StepOfNonzero(x: Crc)
    requires x != Zeros(32)
    ensures Step(x) != Zeros(32)
  {
    if x[31] {
      assert LowTerms()[0] && Step(x)[0];
    } else {
      var i :| 0 <= i < 32 && x[i];
      assert Step(x)[i + 1] == Shl(x, 1)[i + 1] == x[i];
    }
  }

  lemma {:induction false} FeedsNonzero(x: Crc, k: nat)
    requires x != Zeros(32)
    ensures Feeds(Step, x, k) != Zeros(32)
    decreases k
  {
    if k > 0 {
      StepOfNonzero(x);
      FeedsNonzero(Step(x), k - 1);
    }
  }

  lemma {:induction false} BitsOfMessage(data: seq<Octet>)
    ensures |MessageBits(data)| == 8 * |data|
    ensures data != [] && data[|data| - 1] != Zeros(8) ==> true in MessageBits(data)
  {
    if data != [] {
      BitsOfMessage(data[1..]);
      if |data| == 1 && data[0] != Zeros(8) {
        var i :| 0 <= i < 8 && data[0][i];
        assert MsbFirst(data[0])[7 - i];
      }
    }
  }

  lemma FewOctets(data: seq<Octet>)
    requires 0 < |data| <= 4 && data[|data| - 1] != Zeros(8)
    ensures BeFold(data, Zeros(32)) != Zeros(32)
  {
    BitsOfMessage(data);
    FewBits(MessageBits(data));
    FoldIsBits(data, Zeros(32));
  }

  lemma FewBits(bits: seq<bool>)
    requires |bits| <= 32 && true in bits
    ensures BitFold(bits, Zeros(32)) != Zeros(32)
  {
    var i :| 0 <= i < |bits| && bits[i];
    assert AtTop(bits)[31 - i];
    FoldOfBits(bits);
    FeedsNonzero(AtTop(bits), |bits|);
  }

  // ---- the octets of a length that has wrapped ---------------------------------------------------

  function ZeroOctets(k: nat): (r: seq<Octet>)
    ensures |r| == k && forall i :: 0 <= i < k ==> r[i] == Zeros(8)
  {
    seq(k, _ => Zeros(8))
  }

  /** A number of k low octets and more: its low octets, zeros up to the k-th, its high octets. */
  lemma {:induction false} OctetsSplit(lo: nat, hi: nat, p: nat, k: nat)
    requires p == Pow2(8 * k) && lo < p && hi > 0
    ensures |LengthOctets(lo)| <= k
    ensures LengthOctets(lo + hi * p) ==
            LengthOctets(lo) + ZeroOctets(k - |LengthOctets(lo)|) + LengthOctets(hi)
    decreases k
  {
    if k == 0 {
      assert LengthOctets(lo) == [] && ZeroOctets(0) == [];
    } else {
      var q := Pow2(8 * (k - 1));
      Pow2Eight(8 * (k - 1));
      OctetsSplit(lo / 256, hi, q, k - 1);
      NextOctet(lo, hi, q);
      LowOctet(lo, LengthOctets(hi), k);
    }
  }

  /** The lowest octet in front of the others. */
  lemma LowOctet(lo: nat, high: seq<Octet>, k: nat)
    requires k > 0 && |LengthOctets(lo / 256)| <= k - 1
    ensures |LengthOctets(lo)| <= k
    ensures [Bits(lo, 8)] + (LengthOctets(lo / 256) + ZeroOctets(k - 1 - |LengthOctets(lo / 256)|) + high) ==
            LengthOctets(lo) + ZeroOctets(k - |LengthOctets(lo)|) + high
  {
    if lo == 0 {
      NoLowOctets(high, k);
    } else {
      var rest := LengthOctets(lo / 256);
      InFront(Bits(lo, 8), rest, ZeroOctets(k - 1 - |rest|), high);
    }
  }

  lemma NoLowOctets(high: seq<Octet>, k: nat)
    requires k > 0
    ensures LengthOctets(0) == [] && [Bits(0, 8)] + ([] + ZeroOctets(k - 1) + high) == [] + ZeroOctets(k) + high
  {
    ZeroBitsOfZero(8);
    InFront(Zeros(8), [], ZeroOctets(k - 1), high);
    assert [Zeros(8)] + ZeroOctets(k - 1) == ZeroOctets(k);
  }

  lemma InFront(o: Octet, a: seq<Octet>, b: seq<Octet>, c: seq<Octet>)
    ensures [o] + (a + b + c) == ([o] + a) + b + c
    ensures a == [] ==> [o] + (a + b + c) == ([o] + b) + c
  {
  }

  lemma NextOctet(lo: nat, hi: nat, q: nat)
    requires hi > 0 && q > 0
    ensures var n := lo + hi * (256 * q);
      n > 0 && n / 256 == lo / 256 + hi * q && Bits(n, 8) == Bits(lo, 8)
  {
    var n := lo + hi * (256 * q);
    assert hi * (256 * q) == 256 * (hi * q);
    assert hi * q > 0 by {
      assert hi * q == (hi - 1) * q + q;
    }
    assert Pow2(8) == 256;
    LowBits(lo, hi * q, 8);
  }

  // ---- exactly which lengths are served -------------------------------------------------------------

  /** Every file of n octets is given the checksum of the standard. */
  ghost predicate Served(n: nat) {
    forall data: seq<Octet> :: |data| == n ==> IsCksum(data, Finished(data, Wrapped(n)))
  }

  /** Data of n octets that, with the low octets of its length, leaves the register empty. */
  lemma EmptyingData(n: nat, lo: nat) returns (data: seq<Octet>)
    requires n >= 4
    ensures |data| == n && BeFold(Message(data, lo), Zeros(32)) == Zeros(32)
  {
    var r := Reached(MessageBits(LengthOctets(lo)), Zeros(32));
    FoldIsBits(LengthOctets(lo), r);
    var w := FourReach(r);
    var z := ZeroOctets(n - 4);
    data := z + w;
    FoldOfZeros(z);
    BeFoldConcat(z, w, Zeros(32));
    BeFoldConcat(data, LengthOctets(lo), Zeros(32));
  }

  lemma WrappedSplit(n: nat) returns (hi: nat)
    ensures n == Wrapped(n) + hi * UINT32 && (n >= UINT32 <==> hi > 0)
  {
    if n < UINT32 {
      hi := 0;
    } else {
      var h := WrappedSplit(n - UINT32);
      hi := h + 1;
    }
  }

  lemma HighOctets(hi: nat)
    requires 0 < hi < UINT32
    ensures 0 < |LengthOctets(hi)| <= 4 && LengthOctets(hi)[|LengthOctets(hi)| - 1] != Zeros(8)
  {
    PowerOfLimit();
    OctetsSplit(hi, 1, UINT32, 4);
    LengthRoundTrip(hi);
    ValZero(LengthOctets(hi)[|LengthOctets(hi)| - 1]);
  }

  /** Where the low octets of the length leave the register empty, the high octets do not. */
  lemma HighOctetsCount(data: seq<Octet>, lo: nat, hi: nat, n: nat)
    requires lo < UINT32 && 0 < hi < UINT32 && n == lo + hi * UINT32
    requires BeFold(Message(data, lo), Zeros(32)) == Zeros(32)
    ensures BeFold(Message(data, n), Zeros(32)) != Zeros(32)
  {
    var k := MessageSplit(data, lo, hi, n);
    FoldOverZeros(Message(data, lo), ZeroOctets(k), LengthOctets(hi));
    HighOctets(hi);
    FewOctets(LengthOctets(hi));
  }

  lemma MessageSplit(data: seq<Octet>, lo: nat, hi: nat, n: nat) returns (k: nat)
    requires lo < UINT32 && 0 < hi && n == lo + hi * UINT32
    ensures Message(data, n) == Message(data, lo) + ZeroOctets(k) + LengthOctets(hi)
  {
    PowerOfLimit();
    OctetsSplit(lo, hi, UINT32, 4);
    k := 4 - |LengthOctets(lo)|;
  }

  lemma FoldOverZeros(m: seq<Octet>, zeros: seq<Octet>, high: seq<Octet>)
    requires BeFold(m, Zeros(32)) == Zeros(32) && forall i :: 0 <= i < |zeros| ==> zeros[i] == Zeros(8)
    ensures BeFold(m + zeros + high, Zeros(32)) == BeFold(high, Zeros(32))
  {
    BeFoldConcat(m + zeros, high, Zeros(32));
    BeFoldConcat(m, zeros, Zeros(32));
    FoldOfZeros(zeros);
  }

  /** A wrapped length fails for some data. */
  lemma WrappedFails(n: nat) returns (data: seq<Octet>)
    requires UINT32 <= n < UINT32 * UINT32
    ensures |data| == n && !IsCksum(data, Finished(data, Wrapped(n)))
  {
    var lo := Wrapped(n);
    var hi := WrappedSplit(n);
    data := EmptyingData(n, lo);
    HighOctetsCount(data, lo, hi, n);
    FinishedIsCksum(data);
    if IsCksum(data, Finished(data, lo)) {
      CksumUnique(data, Finished(data, lo), Finished(data, n));
      NotCancels(BeFold(Message(data, lo), Zeros(32)), BeFold(Message(data, n), Zeros(32)));
    }
  }

  /** Of the lengths a 64-bit machine can count, exactly those below 4 GiB are served. */
  lemma ServedExactly(n: nat)
    requires n < UINT32 * UINT32
    ensures Served(n) <==> n < UINT32
  {
    if n < UINT32 {
      forall data: seq<Octet> | |data| == n ensures IsCksum(data, Finished(data, Wrapped(n))) {
        FinishedIsCksum(data);
      }
    } else {
      var data := WrappedFails(n);
    }
  }
}
