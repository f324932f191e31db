/** The CRC-32 of `checksum_crc32`: little endian, eight octets at a time. */
module Crc32 {
  import opened Words
  import opened CrcLinear
  import opened CrcSteps
  import opened CrcStandard

  const UINT32: nat := 0x1_0000_0000

  /** A zero octet fed to the little-endian register. */
  function Feed(x: Crc): Crc {
    LeByte(Zeros(8), x)
  }

  lemma FeedLinear()
    ensures Linear(Feed)
  {
    forall x: Crc, y: Crc ensures Feed(Xor(x, y)) == Xor(Feed(x), Feed(y)) {
      FeedXor(x, y);
    }
    forall y: Word | |y| == 24 ensures Feed(Zeros(8) + y) == y + Zeros(8) {
      FeedShifts(y);
    }
  }

  lemma EntryXor(x: Octet, y: Octet)
    ensures Entry(Xor(x, y)) == Xor(Entry(x), Entry(y))
  {
    StepXor();
    HighXor(x, y);
    FeedsXor(Step, Zeros(24) + x, Zeros(24) + y, |x|);
  }

  lemma HighXor(x: Octet, y: Octet)
    ensures Zeros(24) + Xor(x, y) == Xor(Zeros(24) + x, Zeros(24) + y)
  {
  }

  lemma EntryNothing()
    ensures Entry(Zeros(8)) == Zeros(32)
  {
    EntryXor(Zeros(8), Zeros(8));
    assert Xor(Zeros(8), Zeros(8)) == Zeros(8);
    var e := Entry(Zeros(8));
    assert forall i :: 0 <= i < 32 ==> Xor(e, e)[i] == e[i];
  }

  lemma FeedShifts(y: Word)
    requires |y| == 24
    ensures Feed(Zeros(8) + y) == y + Zeros(8)
  {
    var x: Crc := Zeros(8) + y;
    assert Xor(x[..8], Zeros(8)) == Zeros(8);
    EntryNothing();
    assert Rev(Zeros(32)) == Zeros(32);
    assert Shr(x, 8) == y + Zeros(8);
    assert Xor(y + Zeros(8), Zeros(32)) == y + Zeros(8);
  }

  lemma FeedIs(x: Crc)
    ensures Feed(x) == Xor(Shr(x, 8), Rev(Entry(x[..8])))
  {
    assert Xor(x[..8], Zeros(8)) == x[..8];
  }

  lemma TableXor(x: Octet, y: Octet)
    ensures Rev(Entry(Xor(x, y))) == Xor(Rev(Entry(x)), Rev(Entry(y)))
  {
    EntryXor(x, y);
    RevXor(Entry(x), Entry(y));
  }

  lemma PartsXor(x: Crc, y: Crc)
    ensures Xor(x, y)[..8] == Xor(x[..8], y[..8])
    ensures Shr(Xor(x, y), 8) == Xor(Shr(x, 8), Shr(y, 8))
  {
  }

  lemma FeedXor(x: Crc, y: Crc)
    ensures Feed(Xor(x, y)) == Xor(Feed(x), Feed(y))
  {
    FeedIs(x);
    FeedIs(y);
    FeedIs(Xor(x, y));
    PartsXor(x, y);
    TableXor(x[..8], y[..8]);
    Medial(Shr(x, 8), Shr(y, 8), Rev(Entry(x[..8])), Rev(Entry(y[..8])));
  }

  lemma Medial(a: Crc, b: Crc, c: Crc, d: Crc)
    ensures Xor(Xor(a, b), Xor(c, d)) == Xor(Xor(a, c), Xor(b, d))
  {
  }

  /** Feeding an octet is feeding zero to a register it has been added to. */
  lemma LeByteIsFeed(data: Octet, crc: Crc)
    ensures LeByte(data, crc) == Feed(Xor(crc, Low(data)))
  {
    var x := Xor(crc, Low(data));
    assert Xor(x[..8], Zeros(8)) == Xor(crc[..8], data);
    assert Shr(x, 8) == Shr(crc, 8);
  }

  lemma {:induction false} FoldIsAbsorb(data: seq<Octet>, crc: Crc)
    ensures LeFold(data, crc) == Absorb(Feed, data, crc)
  {
    if data != [] {
      LeByteIsFeed(data[0], crc);
      FoldIsAbsorb(data[1..], LeByte(data[0], crc));
    }
  }

  lemma TableZero(o: Octet)
    ensures Slice(Feed, 0, o) == Rev(Entry(o))
  {
    assert Feeds(Feed, Feed(Low(o)), 0) == Feed(Low(o));
    assert Xor(Low(o)[..8], Zeros(8)) == o;
    assert Shr(Low(o), 8) == Zeros(32);
    assert Xor(Zeros(32), Rev(Entry(o))) == Rev(Entry(o));
  }

  // ---- tables -----------------------------------------------------------------------------

  /** Absorbing octets with f is the byte-at-a-time checksum. */
  ghost predicate IsByteUpdate(f: Update) {
    forall data: seq<Octet>, crc: Crc :: Absorb(f, data, crc) == LeFold(data, crc)
  }

  lemma FeedIsByteUpdate()
    ensures IsByteUpdate(Feed)
    ensures forall i: nat :: i < 256 ==> Rev(Entry(Bits(i, 8))) == Slice(Feed, 0, Bits(i, 8))
  {
    forall data: seq<Octet>, crc: Crc ensures Absorb(Feed, data, crc) == LeFold(data, crc) {
      FoldIsAbsorb(data, crc);
    }
    forall i: nat | i < 256 ensures Rev(Entry(Bits(i, 8))) == Slice(Feed, 0, Bits(i, 8)) {
      TableZero(Bits(i, 8));
    }
  }

  /** The constant and the generated tables, for whatever linear update f they serve. */
  class Tables {
    ghost const f: Update
    var ready: bool                // crctab_set
    const crctab: array<Crc>
    const slices: array2<Crc>      // crctab_8byte

    ghost predicate Valid()
      reads this, crctab, slices
    {
      && Linear(f)
      && crctab.Length == 256
      && slices.Length0 == 8 && slices.Length1 == 256
      && (forall i :: 0 <= i < 256 ==> Rev(crctab[i]) == Slice(f, 0, Bits(i, 8)))
      && (ready ==> forall k, i :: 0 <= k < 8 && 0 <= i < 256 ==> slices[k, i] == Slice(f, k, Bits(i, 8)))
    }

    /** The update is the byte-at-a-time one. */
    ghost predicate ForCrc32() {
      IsByteUpdate(f)
    }

    /** The generated form of the constant table: entry i is eight polynomial shifts of `i << 24`. */
    constructor ()
      ensures Valid() && ForCrc32() && !ready && fresh(crctab) && fresh(slices)
      ensures forall i :: 0 <= i < 256 ==> crctab[i] == Entry(Bits(i, 8))
    {
      f := Feed;
      ready := false;
      crctab := new Crc[256](i requires 0 <= i < 256 => Entry(Bits(i, 8)));
      slices := new Crc[8, 256]((k, i) => Zeros(32));
      FeedLinear();
      FeedIsByteUpdate();
    }

    /** crc32_init */
    method Init()
      requires Valid()
      modifies this, slices
      ensures Valid() && ready
    {
      if !ready {
        FillFirst();
        for i := 0 to 256
          invariant forall j :: 0 <= j < 256 ==> slices[0, j] == Slice(f, 0, Bits(j, 8))
          invariant forall k, j :: 0 <= k < 8 && 0 <= j < i ==> slices[k, j] == Slice(f, k, Bits(j, 8))
          modifies slices
        {
          FillColumn(i);
        }
        ready := true;
      }
    }

    /** Table 0: the constant table with its words reversed. */
    method FillFirst()
      requires Valid()
      modifies slices
      ensures forall j :: 0 <= j < 256 ==> slices[0, j] == Slice(f, 0, Bits(j, 8))
    {
      for i := 0 to 256
        invariant forall j :: 0 <= j < i ==> slices[0, j] == Slice(f, 0, Bits(j, 8))
      {
        var r := Rev(crctab[i]);
        assert r == Slice(f, 0, Bits(i, 8));
        slices[0, i] := r;
      }
    }

    /** Entry i of tables 1 to 7, each made from the entry of the table before it. */
    method FillColumn(i: nat)
      requires Linear(f) && i < 256 && slices.Length0 == 8 && slices.Length1 == 256
      requires forall j :: 0 <= j < 256 ==> slices[0, j] == Slice(f, 0, Bits(j, 8))
      modifies slices
      ensures forall k, j :: 0 <= k < 8 && 0 <= j < 256 && (j != i || k == 0) ==> slices[k, j] == old(slices[k, j])
      ensures forall k :: 0 <= k < 8 ==> slices[k, i] == Slice(f, k, Bits(i, 8))
    {
      for k := 1 to 8
        invariant forall l, j :: 0 <= l < 8 && 0 <= j < 256 && (j != i || l == 0) ==> slices[l, j] == old(slices[l, j])
        invariant forall l :: 0 <= l < k ==> slices[l, i] == Slice(f, l, Bits(i, 8))
      {
        var x := slices[k - 1, i];
        OctetIndex(x[..8]);
        SliceStep(f, k - 1, Bits(i, 8));
        slices[k, i] := Xor(Shr(x, 8), slices[0, Val(x[..8])]);
      }
    }

    /** Entry o of table k. */
    method Look(k: nat, o: Octet) returns (r: Crc)
      requires Valid() && ready && k < 8
      ensures r == Slice(f, k, o)
    {
      OctetIndex(o);
      r := slices[k, Val(o)];
    }

    /** crc32_1byte */
    method OneByte(data: Octet, crc: Crc) returns (r: Crc)
      requires Valid() && ready
      ensures r == Absorb(f, [data], crc)
    {
      var t := Look(0, Xor(crc[..8], data));
      r := Xor(Shr(crc, 8), t);
      AbsorbOne(f, data, crc);
    }

    /** The lookups of one round of the sliced loop. */
    method EightBytes(one: Crc, two: Crc) returns (r: Crc)
      requires Valid() && ready
      ensures r == Round(f, one, two)
    {
      r := Look(7, one[..8]);
      var t := Look(6, one[8..16]);
      r := Xor(r, t);
      t := Look(5, one[16..24]);
      r := Xor(r, t);
      t := Look(4, one[24..]);
      r := Xor(r, t);
      t := Look(3, two[..8]);
      r := Xor(r, t);
      t := Look(2, two[8..16]);
      r := Xor(r, t);
      t := Look(1, two[16..24]);
      r := Xor(r, t);
      t := Look(0, two[24..]);
      r := Xor(r, t);
    }

    /** crc32_calc on the octets at address `at`: whatever the alignment, the octets one by one. */
    method Calc(buf: seq<Octet>, at: nat, crc0: Crc) returns (crc: Crc)
      requires Valid() && ready
      ensures crc == Absorb(f, buf, crc0)
    {
      crc := crc0;
      var cp, len := 0, |buf|;
      while len != 0 && (at + cp) % 4 != 0
        invariant 0 <= cp && 0 <= len && cp + len == |buf| && crc == Absorb(f, buf[..cp], crc0)
        decreases len
      {
        AbsorbNext(f, buf, cp, 1, crc0);
        crc := OneByte(buf[cp], crc);
        cp, len := cp + 1, len - 1;
      }
      while len >= 8
        invariant 0 <= cp && 0 <= len && cp + len == |buf| && crc == Absorb(f, buf[..cp], crc0)
      {
        AbsorbNext(f, buf, cp, 8, crc0);
        RoundAbsorbs(f, buf[cp..cp + 8], crc);
        var one := Xor(Load(buf[cp], buf[cp + 1], buf[cp + 2], buf[cp + 3]), crc);
        var two := Load(buf[cp + 4], buf[cp + 5], buf[cp + 6], buf[cp + 7]);
        crc := EightBytes(one, two);
        cp, len := cp + 8, len - 8;
      }
      while len != 0
        invariant 0 <= cp && 0 <= len && cp + len == |buf| && crc == Absorb(f, buf[..cp], crc0)
        decreases len
      {
        AbsorbNext(f, buf, cp, 1, crc0);
        crc := OneByte(buf[cp], crc);
        cp, len := cp + 1, len - 1;
      }
      assert buf[..cp] == buf;
    }

    /** crc32_finish */
    method Finish(length0: nat, crc0: Crc) returns (r: Crc)
      requires Valid() && ready && length0 < UINT32
      ensures r == Not(Rev(Absorb(f, LengthOctets(length0), crc0)))
    {
      var length, crc := length0, crc0;
      while length != 0
        invariant Absorb(f, LengthOctets(length), crc) == Absorb(f, LengthOctets(length0), crc0)
        decreases length
      {
        AbsorbConcat(f, [Bits(length, 8)], LengthOctets(length / 256), crc);
        crc := OneByte(Bits(length, 8), crc);
        length := length / 256;
      }
      r := Not(Rev(crc));
    }
  }

  // ---- the checksum object ----------------------------------------------------------------

  /** The register is at any time the byte reverse of the big-endian one, and `result` turns it
      into the complement of the big-endian checksum of the data and its length. */
  lemma FinishIsFinished(data: seq<Octet>, length: nat)
    ensures LeFold(data, Zeros(32)) == Rev(BeFold(data, Zeros(32)))
    ensures Not(Rev(LeFold(LengthOctets(length), LeFold(data, Zeros(32))))) == Finished(data, length)
  {
    var m := Message(data, length);
    LeFoldConcat(data, LengthOctets(length), Zeros(32));
    assert Rev(Zeros(32)) == Zeros(32);
    FoldOrder(data, Zeros(32));
    FoldOrder(m, Zeros(32));
    RevRev(BeFold(m, Zeros(32)));
  }

  lemma AbsorbedIsFinished(f: Update, data: seq<Octet>, length: nat)
    requires IsByteUpdate(f)
    ensures Not(Rev(Absorb(f, LengthOctets(length), Absorb(f, data, Zeros(32))))) == Finished(data, length)
    ensures length == |data| ==> IsCksum(data, Finished(data, length))
  {
    FinishIsFinished(data, length);
    FinishedIsCksum(data);
  }

  /** A number as `uint32_t` arithmetic leaves it. */
  function Wrapped(n: nat): (r: nat)
    ensures r < UINT32
    ensures n < UINT32 ==> r == n
  {
    if n < UINT32 then n else Wrapped(n - UINT32)
  }

  lemma {:induction false} WrappedAdd(a: nat, b: nat)
    ensures Wrapped(Wrapped(a) + b) == Wrapped(a + b)
  {
    if a >= UINT32 {
      WrappedAdd(a - UINT32, b);
      assert Wrapped(a + b) == Wrapped(a + b - UINT32);
    }
  }

  lemma LengthAdds(length: nat, data: seq<Octet>, buf: seq<Octet>, all: seq<Octet>)
    requires length == Wrapped(|data|) && all == data + buf
    ensures Wrapped(length + |buf|) == Wrapped(|all|)
  {
    WrappedAdd(|data|, |buf|);
  }

  class Checksum {
    const tables: Tables           // shared by all checksums
    var value: Crc
    var length: nat                // uint32_t
    ghost var data: seq<Octet>     // everything added since the last reset

    ghost predicate Valid()
      reads this, tables, tables.crctab, tables.slices
    {
      && tables.Valid() && tables.ready
      && value == Absorb(tables.f, data, Zeros(32))
      && length == Wrapped(|data|)
    }

    constructor (shared: Tables)
      requires shared.Valid()
      modifies shared, shared.slices
      ensures Valid() && tables == shared && data == []
    {
      tables := shared;
      value, length, data := Zeros(32), 0, [];
      new;
      shared.Init();
    }

    /** One more piece of the data, at any address. */
    method Add(buf: seq<Octet>, at: nat)
      requires Valid() && |buf| < UINT32
      modifies this
      ensures Valid() && data == old(data) + buf
    {
      AbsorbConcat(tables.f, data, buf, Zeros(32));
      value := tables.Calc(buf, at, value);
      LengthAdds(length, data, buf, data + buf);
      length, data := Wrapped(length + |buf|), data + buf;
    }

    method Reset()
      requires Valid()
      modifies this
      ensures Valid() && data == []
    {
      value, length, data := Zeros(32), 0, [];
    }

    /** However the data was split, the checksum of the whole; the standard one while the 32-bit
        length has not wrapped. */
    method Result() returns (r: Crc)
      requires Valid() && tables.ForCrc32()
      ensures r == Finished(data, Wrapped(|data|))
      ensures |data| < UINT32 ==> IsCksum(data, r)
    {
      r := tables.Finish(length, value);
      AbsorbedIsFinished(tables.f, data, length);
    }
  }

  // ---- where the standard is left ---------------------------------------------------------

  lemma {:induction false} FoldOfZeros(data: seq<Octet>)
    requires forall i :: 0 <= i < |data| ==> data[i] == Zeros(8)
    ensures BeFold(data, Zeros(32)) == Zeros(32)
  {
    if data != [] {
      OctetIsEightBits(data[0], Zeros(32));
      ZeroBits(MsbFirst(data[0]));
      FoldOfZeros(data[1..]);
    }
  }

  lemma {:induction false} BeFoldConcat(a: seq<Octet>, b: seq<Octet>, crc: Crc)
    ensures BeFold(a + b, crc) == BeFold(b, BeFold(a, crc))
  {
    if a == [] {
      assert a + b == b;
    } else {
      assert (a + b)[1..] == a[1..] + b;
      BeFoldConcat(a[1..], b, BeByte(a[0], crc));
    }
  }

  lemma {:induction false} ZeroBitsOfZero(n: nat)
    ensures Bits(0, n) == Zeros(n)
  {
    if n > 0 {
      ZeroBitsOfZero(n - 1);
    }
  }

  /** Length octets that are zero leave an empty register empty. */
  lemma {:induction false} LengthFold(n: nat, k: nat)
    requires n == Pow2(8 * k)
    ensures BeFold(LengthOctets(n), Zeros(32)) != Zeros(32)
    decreases k
  {
    if k == 0 {
      LengthOfOne();
    } else {
      var m := Pow2(8 * (k - 1));
      Pow2Eight(8 * (k - 1));
      LengthFold(m, k - 1);
      ZeroOctetFirst(m);
      BeFoldConcat([Zeros(8)], LengthOctets(m), Zeros(32));
      OneZeroOctet();
    }
  }

  lemma ZeroOctetFirst(m: nat)
    requires m > 0
    ensures LengthOctets(256 * m) == [Zeros(8)] + LengthOctets(m)
  {
    assert Pow2(8) == 256;
    LowBits(0, m, 8);
    ZeroBitsOfZero(8);
  }

  lemma Pow2Eight(n: nat)
    ensures Pow2(n + 8) == 256 * Pow2(n)
  {
    assert Pow2(n + 8) == 2 * Pow2(n + 7) && Pow2(n + 7) == 2 * Pow2(n + 6) && Pow2(n + 6) == 2 * Pow2(n + 5);
    assert Pow2(n + 5) == 2 * Pow2(n + 4) && Pow2(n + 4) == 2 * Pow2(n + 3) && Pow2(n + 3) == 2 * Pow2(n + 2);
    assert Pow2(n + 2) == 2 * Pow2(n + 1) && Pow2(n + 1) == 2 * Pow2(n);
  }

  lemma LengthOfOne()
    ensures BeFold(LengthOctets(1), Zeros(32)) != Zeros(32)
  {
    OctetOfOne();
    FoldOfOne([true] + Zeros(7));
  }

  lemma OctetOfOne()
    ensures LengthOctets(1) == [[true] + Zeros(7)]
  {
    ZeroBitsOfZero(7);
    assert LengthOctets(0) == [];
    assert Bits(1, 8) == [true] + Bits(0, 7);
  }

  lemma FoldOfOne(o: Octet)
    requires o == [true] + Zeros(7)
    ensures BeFold([o], Zeros(32)) != Zeros(32)
  {
    assert [o][1..] == [];
    var bits := MsbFirst(o);
    OctetIsEightBits(o, Zeros(32));
    assert bits == bits[..7] + [true];
    AbsorbBitsConcat(Step, bits[..7], [true], Zeros(32));
    ZeroBits(bits[..7]);
    LastBit();
  }

  lemma LastBit()
    ensures BitFold([true], Zeros(32)) != Zeros(32)
  {
    assert [true][1..] == [];
    var x := Xor(Zeros(32), TopBit(true));
    assert x[31];
    assert LowTerms()[0];
    assert Step(x)[0];
  }

  lemma LostLength(data: seq<Octet>, k: nat)
    requires forall i :: 0 <= i < |data| ==> data[i] == Zeros(8)
    ensures Finished(data, Pow2(8 * k)) != Finished(data, 0)
  {
    var n := Pow2(8 * k);
    FoldOfZeros(data);
    LengthFold(n, k);
    BeFoldConcat(data, LengthOctets(n), Zeros(32));
    BeFoldConcat(data, LengthOctets(0), Zeros(32));
    NotCancels(BeFold(Message(data, n), Zeros(32)), BeFold(Message(data, 0), Zeros(32)));
  }

  lemma NotCancels(x: Crc, y: Crc)
    ensures Not(x) == Not(y) ==> x == y
  {
    assert x == Not(Not(x)) && y == Not(Not(y));
  }

  /** 4 GiB of zero octets: the length has wrapped to 0 and the result is not the standard one. */
  lemma WrapLeavesStandard(data: seq<Octet>)
    requires |data| == UINT32 && forall i :: 0 <= i < |data| ==> data[i] == Zeros(8)
    ensures !IsCksum(data, Finished(data, Wrapped(|data|)))
  {
    var n := |data|;
    PowerOfLimit();
    LostLength(data, 4);
    FinishedIsCksum(data);
    if IsCksum(data, Finished(data, 0)) {
      CksumUnique(data, Finished(data, 0), Finished(data, n));
    }
  }

  lemma PowerOfLimit()
    ensures Pow2(8 * 4) == UINT32 && Wrapped(UINT32) == 0
  {
    Pow2Eight(0);
    Pow2Eight(8);
    Pow2Eight(16);
    Pow2Eight(24);
    assert Wrapped(UINT32) == Wrapped(UINT32 - UINT32);
  }
}
