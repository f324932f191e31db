/** How the parameters of a channel in the configuration files become its size, and which of them give it
    data that divides into sixteenths of a second. */
module ChannelConfig {
  import opened Words
  import opened Layout

  const MIN_RATE: int := 16
  const MAX_RATE: int := 512 * 1024
  const NOT_NAMED: int := -1

  /** CHAN_PARAM once the defaults have been filled in. */
  datatype Param = Param(dcu: nat, rate: int, dataType: int, testpoint: bool)

  /** The rates that may be named. */
  ghost predicate Accepted(rate: int) {
    16 <= rate <= 524288 && exists k: nat :: rate == Pow2(k)
  }

  lemma {:induction false} OddIsNoPower(q: nat, i: nat, k: nat)
    requires q > 1 && q % 2 == 1
    ensures q * Pow2(i) != Pow2(k)
    decreases i
  {
    if i == 0 {
      assert k > 0 ==> Pow2(k) % 2 == 0;
    } else {
      Doubled(q, Pow2(i - 1));
      if k > 0 {
        OddIsNoPower(q, i - 1, k - 1);
      }
    }
  }

  lemma Doubled(q: nat, x: nat)
    ensures q * (2 * x) == 2 * (q * x)
  {
  }

  /** The check of a named rate: halved until it is 1, it may never be odd before. */
  method CheckRate(rate: int) returns (ok: bool)
    ensures ok <==> Accepted(rate)
  {
    if rate < MIN_RATE || rate > MAX_RATE {
      return false;
    }
    var value: nat := rate;
    ghost var i: nat := 0;
    while value > 1
      invariant value >= 1 && rate == value * Pow2(i)
    {
      if value % 2 != 0 {
        forall k: nat ensures rate != Pow2(k) {
          OddIsNoPower(value, i, k);
        }
        return false;
      }
      assert value * Pow2(i) == value / 2 * Pow2(i + 1);
      value := value / 2;
      i := i + 1;
    }
    ok := true;
  }

  // daq_data_t
  const INT_16 := 1
  const INT_32 := 2
  const INT_64 := 3
  const FLOAT_32 := 4
  const DOUBLE_64 := 5
  const COMPLEX_32 := 6
  const UINT_32 := 7

  /** Samples of this type are so many bits wide; a complex one is two floats. */
  ghost predicate HasWidth(dataType: int, bits: nat) {
    || (dataType == INT_16 && bits == 16)
    || ((dataType == INT_32 || dataType == UINT_32 || dataType == FLOAT_32) && bits == 32)
    || ((dataType == INT_64 || dataType == DOUBLE_64) && bits == 64)
    || (dataType == COMPLEX_32 && bits == 32 + 32)
  }

  /** daqd_c::data_type_size */
  function SampleSize(dataType: int): nat {
    if dataType == 1 then 2
    else if dataType == 2 || dataType == 4 || dataType == 7 then 4
    else if dataType == 3 || dataType == 5 || dataType == 6 then 8
    else 0
  }

  /** chanConfigCallback and the first lines of the layout loop. */
  function Loaded(site: Site, p: Param): Channel {
    var rate := if p.rate == 1 then 16 else p.rate;
    Channel(p.dcu, rate * SampleSize(p.dataType), p.dcu in site.tp && p.testpoint)
  }

  /** What parsing lets through: a rate is checked where it is named, and nothing is checked where it is not. */
  ghost predicate Parsed(p: Param) {
    p.rate == NOT_NAMED || Accepted(p.rate)
  }

  lemma {:induction false} PowerGrows(a: nat, b: nat)
    requires a <= b
    ensures Pow2(a) <= Pow2(b)
    decreases b
  {
    if a < b {
      PowerGrows(a, b - 1);
    }
  }

  lemma {:induction false} PowerDivides(k: nat)
    requires Pow2(k) >= 16
    ensures Pow2(k) % 16 == 0
  {
    if k < 4 {
      PowerGrows(k, 3);
    }
    assert Pow2(k) == 2 * Pow2(k - 1) == 4 * Pow2(k - 2) == 8 * Pow2(k - 3) == 16 * Pow2(k - 4);
  }

  /** A channel that passes has exactly its samples: so many a second, each of the width of its type. Only the channels
      of a test-point DCU that name a test point are aliases. */
  lemma BytesExact(site: Site, p: Param)
    requires Accepted(p.rate)
    ensures forall bits :: HasWidth(p.dataType, bits) ==> 8 * Loaded(site, p).bytes == p.rate * bits
    ensures (forall bits :: !HasWidth(p.dataType, bits)) ==> Loaded(site, p).bytes == 0
    ensures Loaded(site, p).dcu == p.dcu && (Loaded(site, p).alias <==> p.dcu in site.tp && p.testpoint)
  {
    forall bits | HasWidth(p.dataType, bits) ensures 8 * Loaded(site, p).bytes == p.rate * bits {
      InBits(p.rate, SampleSize(p.dataType), bits);
    }
    if forall bits :: !HasWidth(p.dataType, bits) {
      assert !HasWidth(p.dataType, 16) && !HasWidth(p.dataType, 32) && !HasWidth(p.dataType, 64);
    }
  }

  lemma InBits(rate: int, size: nat, bits: nat)
    requires bits == 8 * size
    ensures 8 * (rate * size) == rate * bits
  {
    assert rate * (8 * size) == 8 * (rate * size);
  }

  lemma SizeDivides(rate: int, size: nat)
    requires rate % 16 == 0 && rate > 0 && (size == 2 || size == 4 || size == 8)
    ensures rate * size > 0 && rate * size % 16 == 0
  {
    var q := rate / 16;
    assert rate * size == 16 * (q * size);
  }

  /** A channel has data that divides into sixteenths if and only if it names a rate and a known data type.
      With no known type it has none, and with a known type but no rate less than none. */
  lemma SizeExact(site: Site, p: Param)
    requires Parsed(p)
    ensures var c, size := Loaded(site, p), SampleSize(p.dataType);
      && (c.bytes > 0 && c.bytes % PARTS == 0 <==> p.rate != NOT_NAMED && size != 0)
      && (size == 0 ==> c.bytes == 0)
      && (p.rate == NOT_NAMED ==> c.bytes + size == 0 && size < PARTS)
  {
    if p.rate != NOT_NAMED {
      var k: nat :| p.rate == Pow2(k);
      PowerDivides(k);
      if SampleSize(p.dataType) != 0 {
        SizeDivides(p.rate, SampleSize(p.dataType));
      }
    }
  }
}
