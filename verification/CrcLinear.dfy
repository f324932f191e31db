/** Why eight table lookups can do the work of eight octets, for any register update f that is linear
    over GF(2) and that only shifts while the low octet is zero. */
module CrcLinear {
  import opened Words

  type Crc = w: Word | |w| == 32 witness Zeros(32)
  type Update = Crc -> Crc

  ghost predicate Additive(f: Update) {
    forall x: Crc, y: Crc :: f(Xor(x, y)) == Xor(f(x), f(y))
  }

  ghost predicate Linear(f: Update) {
    Additive(f) && forall y: Word :: |y| == 24 ==> f(Zeros(8) + y) == y + Zeros(8)
  }

  /** k updates. */
  function Feeds(f: Update, x: Crc, k: nat): Crc
    decreases |x|, k
  {
    if k == 0 then x else Feeds(f, f(x), k - 1)
  }

  /** Octets added to the low end of the register, one update after each. */
  function Absorb(f: Update, data: seq<Octet>, x: Crc): Crc {
    if data == [] then x else Absorb(f, data[1..], f(Xor(x, Low(data[0]))))
  }

  /** An octet in the low end of a register. */
  function Low(o: Octet): Crc {
    o + Zeros(24)
  }

  /** The little-endian load of four octets. */
  function Load(a: Octet, b: Octet, c: Octet, d: Octet): Crc {
    a + b + c + d
  }

  /** Entry o of table k. */
  function Slice(f: Update, k: nat, o: Octet): Crc {
    Feeds(f, Low(o), k + 1)
  }

  lemma {:induction false} FeedsXor(f: Update, x: Crc, y: Crc, k: nat)
    requires Additive(f)
    ensures Feeds(f, Xor(x, y), k) == Xor(Feeds(f, x, k), Feeds(f, y, k))
    decreases k
  {
    if k > 0 {
      FeedsXor(f, f(x), f(y), k - 1);
    }
  }

  lemma {:induction false} FeedsAdd(f: Update, x: Crc, j: nat, k: nat)
    ensures Feeds(f, Feeds(f, x, j), k) == Feeds(f, x, j + k)
    decreases j
  {
    if j > 0 {
      FeedsAdd(f, f(x), j - 1, k);
    }
  }

  /** An update from the other end: it shifts up while the top bit is zero. */
  ghost predicate OnlyShifts(f: Update) {
    forall x: Crc :: !x[31] ==> f(x) == [false] + x[..31]
  }

  lemma {:induction false} ShiftUp(f: Update, y: Word, k: nat)
    requires OnlyShifts(f) && |y| + k == 32
    ensures Feeds(f, y + Zeros(k), k) == Zeros(k) + y
    decreases k
  {
    if k == 0 {
      assert y + Zeros(0) == y;
    } else {
      var z := [false] + y;
      assert [false] + (y + Zeros(k))[..31] == z + Zeros(k - 1);
      ShiftUp(f, z, k - 1);
      assert Zeros(k - 1) + z == Zeros(k) + y;
    }
  }

  /** A bit added to the top of the register. */
  function TopBit(bit: bool): Crc {
    Zeros(31) + [bit]
  }

  /** Bits added to the top of the register, one update after each. */
  function AbsorbBits(f: Update, bits: seq<bool>, x: Crc): Crc {
    if bits == [] then x else AbsorbBits(f, bits[1..], f(Xor(x, TopBit(bits[0]))))
  }

  lemma {:induction false} AbsorbBitsConcat(f: Update, a: seq<bool>, b: seq<bool>, x: Crc)
    ensures AbsorbBits(f, a + b, x) == AbsorbBits(f, b, AbsorbBits(f, a, x))
  {
    if a == [] {
      assert a + b == b;
    } else {
      assert (a + b)[1..] == a[1..] + b;
      AbsorbBitsConcat(f, a[1..], b, f(Xor(x, TopBit(a[0]))));
    }
  }

  /** The register with the given bits at its top. */
  function AtTop(bits: seq<bool>): (r: Crc)
    requires |bits| <= 32
    ensures forall i :: 0 <= i < 32 ==> (r[i] <==> 31 - i < |bits| && bits[31 - i])
  {
    seq(32, i requires 0 <= i < 32 => 31 - i < |bits| && bits[31 - i])
  }

  /** Bits added one by one are as good as added together at the start. */
  lemma {:induction false} GatherBits(f: Update, bits: seq<bool>, x: Crc)
    requires Additive(f) && OnlyShifts(f) && |bits| <= 32
    ensures AbsorbBits(f, bits, x) == Feeds(f, Xor(x, AtTop(bits)), |bits|)
    decreases |bits|
  {
    if bits == [] {
      assert Xor(x, AtTop(bits)) == x;
    } else {
      var w := AtTop(bits[1..]);
      var x1 := Xor(x, TopBit(bits[0]));
      var y: Crc := w[1..] + [false];
      assert !w[0];
      assert Xor(x, AtTop(bits)) == Xor(x1, y);
      assert [false] + y[..31] == w;
      GatherBits(f, bits[1..], f(x1));
    }
  }

  /** The recurrence that builds table k + 1 from tables k and 0. */
  lemma SliceStep(f: Update, k: nat, o: Octet)
    requires Linear(f)
    ensures Slice(f, k + 1, o) == Xor(Shr(Slice(f, k, o), 8), Slice(f, 0, Slice(f, k, o)[..8]))
  {
    var x := Slice(f, k, o);
    FeedsAdd(f, Low(o), k + 1, 1);
    assert Slice(f, k + 1, o) == f(x);
    UpdateSplit(f, x);
  }

  /** What every update amounts to: shift, and look the octet that fell out up in table 0. */
  lemma UpdateSplit(f: Update, x: Crc)
    requires Linear(f)
    ensures f(x) == Xor(Shr(x, 8), Slice(f, 0, x[..8]))
  {
    var y := x[8..];
    assert x == Xor(Zeros(8) + y, Low(x[..8]));
    assert f(x) == Xor(f(Zeros(8) + y), f(Low(x[..8])));
    assert Feeds(f, f(Low(x[..8])), 0) == f(Low(x[..8]));
  }

  /** An octet p places up needs p updates to come down. */
  lemma {:induction false} Placed(f: Update, o: Octet, p: nat, k: nat)
    requires Linear(f) && p <= 3
    ensures Feeds(f, Zeros(8 * p) + o + Zeros(24 - 8 * p), k + p) == Feeds(f, Low(o), k)
    decreases p
  {
    if p == 0 {
      assert Zeros(0) + o + Zeros(24) == Low(o);
    } else {
      var y := Zeros(8 * (p - 1)) + o + Zeros(24 - 8 * p);
      assert Zeros(8 * p) + o + Zeros(24 - 8 * p) == Zeros(8) + y;
      assert y + Zeros(8) == Zeros(8 * (p - 1)) + o + Zeros(24 - 8 * (p - 1));
      Placed(f, o, p - 1, k);
    }
  }

  lemma LoadSplits(a: Octet, b: Octet, c: Octet, d: Octet)
    ensures Load(a, b, c, d) == Xor(Xor(Xor(
              Low(a), Zeros(8) + b + Zeros(16)), Zeros(16) + c + Zeros(8)), Zeros(24) + d + Zeros(0))
  {
  }

  /** A loaded word is worth four table lookups. */
  lemma WordSlices(f: Update, a: Octet, b: Octet, c: Octet, d: Octet, k: nat)
    requires Linear(f)
    ensures Feeds(f, Load(a, b, c, d), k + 4) ==
            Xor(Xor(Xor(Slice(f, k + 3, a), Slice(f, k + 2, b)), Slice(f, k + 1, c)), Slice(f, k, d))
  {
    var xb: Crc, xc: Crc, xd: Crc := Zeros(8) + b + Zeros(16), Zeros(16) + c + Zeros(8), Zeros(24) + d + Zeros(0);
    LoadSplits(a, b, c, d);
    FeedsXor(f, Xor(Xor(Low(a), xb), xc), xd, k + 4);
    FeedsXor(f, Xor(Low(a), xb), xc, k + 4);
    FeedsXor(f, Low(a), xb, k + 4);
    Placed(f, b, 1, k + 3);
    Placed(f, c, 2, k + 2);
    Placed(f, d, 3, k + 1);
  }

  /** The word that up to four octets make. */
  function Pad(data: seq<Octet>): Crc
    requires |data| <= 4
  {
    if data == [] then Zeros(32) else data[0] + Pad(data[1..])[..24]
  }

  lemma {:induction false} PadTail(data: seq<Octet>)
    requires |data| <= 4
    ensures forall i :: 8 * |data| <= i < 32 ==> !Pad(data)[i]
    decreases |data|
  {
    if data != [] {
      PadTail(data[1..]);
      forall i | 8 * |data| <= i < 32 ensures !Pad(data)[i] {
        assert Pad(data)[i] == Pad(data[1..])[i - 8];
      }
    }
  }

  /** Octets absorbed one by one on the way are as good as added together at the start. */
  lemma {:induction false} Gather(f: Update, data: seq<Octet>, x: Crc)
    requires Linear(f) && |data| <= 4
    ensures Absorb(f, data, x) == Feeds(f, Xor(x, Pad(data)), |data|)
    decreases |data|
  {
    if data == [] {
      assert Xor(x, Zeros(32)) == x;
    } else {
      var rest := Pad(data[1..]);
      PadTail(data[1..]);
      var y := rest[..24];
      assert rest == y + Zeros(8);
      var x1 := Xor(x, Low(data[0]));
      assert Xor(x, Pad(data)) == Xor(x1, Zeros(8) + y);
      assert f(Xor(x, Pad(data))) == Xor(f(x1), rest);
      Gather(f, data[1..], f(x1));
    }
  }

  lemma PadIsLoad(a: Octet, b: Octet, c: Octet, d: Octet)
    ensures Pad([a, b, c, d]) == Load(a, b, c, d)
  {
    assert [a, b, c, d][1..] == [b, c, d] && [b, c, d][1..] == [c, d] && [c, d][1..] == [d] && [d][1..] == [];
    assert Pad([d]) == d + Zeros(24);
    assert Pad([c, d]) == c + d + Zeros(16);
    assert Pad([b, c, d]) == b + c + d + Zeros(8);
  }

  lemma {:induction false} AbsorbConcat(f: Update, a: seq<Octet>, b: seq<Octet>, x: Crc)
    ensures Absorb(f, a + b, x) == Absorb(f, b, Absorb(f, a, x))
  {
    if a == [] {
      assert a + b == b;
    } else {
      assert (a + b)[1..] == a[1..] + b;
      AbsorbConcat(f, a[1..], b, f(Xor(x, Low(a[0]))));
    }
  }

  /** One round of the sliced loop, on the words `one` and `two`. */
  function Round(f: Update, one: Crc, two: Crc): Crc {
    Xor(Xor(Xor(Xor(Xor(Xor(Xor(
      Slice(f, 7, one[..8]), Slice(f, 6, one[8..16])), Slice(f, 5, one[16..24])), Slice(f, 4, one[24..])),
      Slice(f, 3, two[..8])), Slice(f, 2, two[8..16])), Slice(f, 1, two[16..24])), Slice(f, 0, two[24..]))
  }

  /** Eight octets at once: one round is eight octets one by one. */
  lemma RoundAbsorbs(f: Update, data: seq<Octet>, x: Crc)
    requires Linear(f) && |data| == 8
    ensures Absorb(f, data, x) ==
            Round(f, Xor(Load(data[0], data[1], data[2], data[3]), x), Load(data[4], data[5], data[6], data[7]))
  {
    var a, b := data[..4], data[4..];
    assert data == a + b && a == [data[0], data[1], data[2], data[3]] && b == [data[4], data[5], data[6], data[7]];
    AbsorbConcat(f, a, b, x);
    PadIsLoad(data[0], data[1], data[2], data[3]);
    PadIsLoad(data[4], data[5], data[6], data[7]);
    Gather(f, a, x);
    var one, two := Xor(Pad(a), x), Pad(b);
    assert Xor(x, Pad(a)) == one;
    Gather(f, b, Feeds(f, one, 4));
    FeedsXor(f, Feeds(f, one, 4), two, 4);
    FeedsAdd(f, one, 4, 4);
    TwoWords(f, one, two);
  }

  lemma TwoWords(f: Update, one: Crc, two: Crc)
    requires Linear(f)
    ensures Xor(Feeds(f, one, 8), Feeds(f, two, 4)) == Round(f, one, two)
  {
    assert Load(one[..8], one[8..16], one[16..24], one[24..]) == one;
    WordSlices(f, one[..8], one[8..16], one[16..24], one[24..], 4);
    assert Load(two[..8], two[8..16], two[16..24], two[24..]) == two;
    WordSlices(f, two[..8], two[8..16], two[16..24], two[24..], 0);
    Regroup(Xor(Xor(Xor(
              Slice(f, 7, one[..8]), Slice(f, 6, one[8..16])), Slice(f, 5, one[16..24])), Slice(f, 4, one[24..])),
            Slice(f, 3, two[..8]), Slice(f, 2, two[8..16]), Slice(f, 1, two[16..24]), Slice(f, 0, two[24..]));
  }

  lemma Regroup(x: Crc, a: Crc, b: Crc, c: Crc, d: Crc)
    ensures Xor(x, Xor(Xor(Xor(a, b), c), d)) == Xor(Xor(Xor(Xor(x, a), b), c), d)
  {
  }

  /** The update by one octet, as a shift and one lookup. */
  lemma AbsorbOne(f: Update, data: Octet, x: Crc)
    requires Linear(f)
    ensures Absorb(f, [data], x) == Xor(Shr(x, 8), Slice(f, 0, Xor(x[..8], data)))
  {
    assert [data][1..] == [];
    var y := Xor(x, Low(data));
    UpdateSplit(f, y);
    assert y[..8] == Xor(x[..8], data);
    assert Shr(y, 8) == Shr(x, 8);
  }

  lemma AbsorbNext(f: Update, buf: seq<Octet>, a: nat, n: nat, x: Crc)
    requires a + n <= |buf|
    ensures Absorb(f, buf[..a + n], x) == Absorb(f, buf[a..a + n], Absorb(f, buf[..a], x))
    ensures n == 1 ==> buf[a..a + n] == [buf[a]]
  {
    assert buf[..a + n] == buf[..a] + buf[a..a + n];
    AbsorbConcat(f, buf[..a], buf[a..a + n], x);
  }
}
