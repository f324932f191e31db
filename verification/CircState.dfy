/** The data of one circular buffer (`circ_buffer_t`) and the effect on it of each critical section
    of `circ_buffer`. A mask is the set of consumer numbers whose bit is set (see ConsumerMask). */
module CircState {
  import opened Ring
  import Words

  /** Consumer numbers are 0..126: the last bit of the mask is never handed out. */
  const MAX_CONSUMERS: nat := 127

  /** Parts a block is divided into by the 16th interface. */
  const PARTS: nat := 16

  type Bytes = seq<Words.Octet>

  /** circ_buffer_block_prop_t */
  datatype Prop = Prop(run: int, gps: int, gpsN: int, cycle: int, seqNum: nat)

  datatype PropArg = NoProp | Given(prop: Prop)

  /** What a reader of a block can see: its properties, its bytes, its 16 parts. */
  datatype Content = Content(prop: Prop, bytes: nat, data: Bytes, slices: seq<Bytes>, props16: seq<Prop>)

  /** One ring slot (`circ_buffer_block_t` with its share of the data space). */
  datatype Slot = Slot(busy: set<nat>, busy16: seq<set<nat>>, content: Content)

  /** The shared fields. */
  datatype Buf = Buf(
    blockSize: nat, slots: seq<Slot>,
    nextIn: nat, nextIn16: nat, puts: nat, drops: nat,
    cmask: set<nat>, cmask16: set<nat>, tcmask: set<nat>,
    consumers: int, transients: int, fasts: int,
    nextOut: seq<nat>, nextOut16: seq<nat>)

  predicate Shaped(b: Buf) {
    && |b.slots| > 0
    && (forall k :: 0 <= k < |b.slots| ==>
          |b.slots[k].busy16| == PARTS && |b.slots[k].content.slices| == PARTS && |b.slots[k].content.props16| == PARTS)
    && b.nextIn < |b.slots|
    && b.nextIn16 < PARTS
    && |b.nextOut| == MAX_CONSUMERS && |b.nextOut16| == MAX_CONSUMERS
    && (forall c :: 0 <= c < MAX_CONSUMERS ==> b.nextOut[c] < |b.slots|)
  }

  const NO_PROP := Prop(0, 0, 0, 0, 0)

  /** The consumer numbers below k. */
  function Numbers(k: nat): (r: set<nat>)
    ensures forall c: nat :: c in r <==> c < k
  {
    if k == 0 then {} else Numbers(k - 1) + {k - 1}
  }

  /** `buffer_malloc`: zeroed memory, the first `consumers` numbers registered. */
  function EmptyContent(): Content {
    Content(NO_PROP, 0, [], seq(PARTS, _ => []), seq(PARTS, _ => NO_PROP))
  }

  function EmptySlot(): Slot {
    Slot({}, seq(PARTS, _ => {}), EmptyContent())
  }

  function Rounded(blockSize: nat): nat {
    if blockSize % 8 != 0 then blockSize + (8 - blockSize % 8) else blockSize
  }

  function InitBuf(consumers: nat, blocks: nat, blockSize: nat): Buf {
    Buf(Rounded(blockSize), seq(blocks, _ => EmptySlot()), 0, 0, 0, 0,
        Numbers(consumers), {}, Numbers(consumers), consumers, 0, 0,
        seq(MAX_CONSUMERS, _ => 0), seq(MAX_CONSUMERS, _ => 0))
  }

  // ---- producer ---------------------------------------------------------------------------

  /** The properties left in a block: the caller's when given, always numbered by `puts`. */
  function Stamped(old_: Prop, arg: PropArg, puts: nat): Prop {
    (if arg.Given? then arg.prop else old_).(seqNum := puts)
  }

  /** Filling a block in `put`, `put_pscattered`, `put_nowait` and `put_nowait_scattered`. */
  function FillWhole(c: Content, data: Bytes, arg: PropArg, puts: nat): Content {
    c.(data := data, bytes := |data|, prop := Stamped(c.prop, arg, puts))
  }

  /** Filling part j of a block in `put16th_dpscattered`. */
  function FillPart(c: Content, j: nat, data: Bytes, arg: PropArg, puts: nat): Content
    requires |c.slices| == PARTS && |c.props16| == PARTS && j < PARTS
  {
    c.(slices := c.slices[j := data],
       props16 := c.props16[j := Stamped(c.props16[j], arg, puts)],
       bytes := if j == 0 then |data| else c.bytes + |data|,
       prop := if j == 0 then Stamped(c.prop, arg, puts) else c.prop)
  }

  function SetContent(b: Buf, k: nat, c: Content): Buf
    requires k < |b.slots|
  {
    b.(slots := b.slots[k := b.slots[k].(content := c)])
  }

  /** `block[nbi].busy = cmask` */
  function MarkBusy(b: Buf, k: nat): Buf
    requires k < |b.slots|
  {
    b.(slots := b.slots[k := b.slots[k].(busy := b.cmask)])
  }

  /** `++next_block_in %= blocks; puts++` */
  function AdvanceIn(b: Buf): Buf
    requires b.nextIn < |b.slots|
  {
    b.(nextIn := Succ(b.nextIn, |b.slots|), puts := b.puts + 1)
  }

  /** `++next_block_in_16th %= 16; block[nbi].busy16th[nbi16th] = cmask16th` */
  function MarkPart(b: Buf, k: nat, j: nat): Buf
    requires k < |b.slots| && j < |b.slots[k].busy16| && b.nextIn16 < PARTS
  {
    b.(nextIn16 := Succ(b.nextIn16, PARTS),
       slots := b.slots[k := b.slots[k].(busy16 := b.slots[k].busy16[j := b.cmask16])])
  }

  /** `drops++; puts++` */
  function CountDropped(b: Buf): Buf {
    b.(drops := b.drops + 1, puts := b.puts + 1)
  }

  // ---- consumers --------------------------------------------------------------------------

  /** `block[nbo].busy.clear(cnum)` */
  function ClearBit(b: Buf, k: nat, c: nat): Buf
    requires k < |b.slots|
  {
    b.(slots := b.slots[k := b.slots[k].(busy := b.slots[k].busy - {c})])
  }

  /** All 17 bits of consumer c in one slot. */
  function CleanSlot(sl: Slot, c: nat): Slot {
    sl.(busy := sl.busy - {c}, busy16 := seq(|sl.busy16|, j requires 0 <= j < |sl.busy16| => sl.busy16[j] - {c}))
  }

  function ClearBits(b: Buf, k: nat, c: nat): Buf
    requires k < |b.slots|
  {
    b.(slots := b.slots[k := CleanSlot(b.slots[k], c)])
  }

  /** `++next_block_out[cnum] %= blocks` */
  function AdvanceOut(b: Buf, c: nat): Buf
    requires c < |b.nextOut| && b.nextOut[c] < |b.slots|
  {
    b.(nextOut := b.nextOut[c := Succ(b.nextOut[c], |b.slots|)])
  }

  function SetOut16(b: Buf, c: nat, v: nat): Buf
    requires c < |b.nextOut16|
  {
    b.(nextOut16 := b.nextOut16[c := v])
  }

  // ---- membership -------------------------------------------------------------------------

  /** The search `for (i = 0; tcmask.get(i); i++)`, started at i. */
  function FirstFree(mask: set<nat>, i: nat): (r: nat)
    requires exists c: nat :: c >= i && c !in mask
    ensures r >= i && r !in mask && forall c :: i <= c < r ==> c in mask
    decreases |mask - Numbers(i)|
  {
    if i !in mask then i
    else
      assert mask - Numbers(i + 1) < mask - Numbers(i) by {
        assert i in mask - Numbers(i);
      }
      SubsetCard(mask - Numbers(i + 1), mask - Numbers(i));
      FirstFree(mask, i + 1)
  }

  lemma {:induction false} SubsetCard<T>(a: set<T>, b: set<T>)
    requires a < b
    ensures |a| < |b|
  {
    var x :| x in b && x !in a;
    if a == {} {
    } else {
      var y :| y in a;
      SubsetCard(a - {y}, b - {y});
    }
  }

  lemma {:induction false} NumbersCard(k: nat)
    ensures |Numbers(k)| == k
  {
    if k > 0 {
      NumbersCard(k - 1);
    }
  }

  /** A registry with a consumer to spare always has a free number below the limit. */
  lemma FreeNumber(mask: set<nat>, limit: nat)
    requires (forall c :: c in mask ==> c < limit) && |mask| < limit
    ensures limit !in mask && FirstFree(mask, 0) < limit
  {
    assert limit !in mask;
    var r := FirstFree(mask, 0);
    if r >= limit {
      assert mask == Numbers(limit);
      NumbersCard(limit);
    }
  }

  /** The number given to a new consumer. */
  function LowestFree(mask: set<nat>): (c: nat)
    requires (forall d :: d in mask ==> d < MAX_CONSUMERS) && |mask| < MAX_CONSUMERS
    ensures c < MAX_CONSUMERS && c !in mask && forall d: nat :: d < c ==> d in mask
  {
    FreeNumber(mask, MAX_CONSUMERS);
    FirstFree(mask, 0)
  }

  /** `add_consumer(fast)` once number c has been found. */
  function Register(b: Buf, c: nat, fast: bool): Buf
    requires c < |b.nextOut| && c < |b.nextOut16|
  {
    var b1 := b.(cmask := b.cmask + {c}, tcmask := b.tcmask + {c}, consumers := b.consumers + 1,
                 nextOut := b.nextOut[c := b.nextIn]);
    if fast then
      b1.(cmask16 := b.cmask16 + {c}, nextOut16 := b.nextOut16[c := b.nextIn16], fasts := b.fasts + 1)
    else b1
  }

  /** The end of `add_transient_consumer` when some block was marked. */
  function RegisterTransient(b: Buf, c: nat, first: nat): Buf
    requires c < |b.nextOut|
  {
    b.(tcmask := b.tcmask + {c}, consumers := b.consumers + 1, transients := b.transients + 1,
       nextOut := b.nextOut[c := first])
  }

  predicate InPeriod(p: Prop, gps: int, delta: int) {
    gps <= p.gps < gps + delta
  }

  /** `block[i].busy.set(cons_num)` */
  function SetBit(b: Buf, k: nat, c: nat): Buf
    requires k < |b.slots|
  {
    b.(slots := b.slots[k := b.slots[k].(busy := b.slots[k].busy + {c})])
  }

  /** The masks and counters part of `delete_consumer`. */
  function Unregister(b: Buf, c: nat): Buf {
    b.(fasts := if c in b.cmask16 then b.fasts - 1 else b.fasts,
       cmask16 := b.cmask16 - {c},
       transients := if c !in b.cmask then b.transients - 1 else b.transients,
       cmask := b.cmask - {c},
       tcmask := b.tcmask - {c},
       consumers := b.consumers - 1)
  }

  /** The registry of consumers: nested masks, each counted. */
  ghost predicate Registry(b: Buf) {
    && (forall c :: c in b.tcmask ==> c < MAX_CONSUMERS)
    && b.cmask16 <= b.cmask <= b.tcmask
    && b.consumers == |b.tcmask|
    && b.transients == |b.tcmask - b.cmask|
    && b.fasts == |b.cmask16|
  }

  lemma RegisterKeepsRegistry(b: Buf, c: nat, fast: bool)
    requires Registry(b) && c < MAX_CONSUMERS && c !in b.tcmask && c < |b.nextOut| && c < |b.nextOut16|
    ensures Registry(Register(b, c, fast))
    ensures var r := Register(b, c, fast); c in r.cmask && (c in r.cmask16 <==> fast)
  {
    assert (b.tcmask + {c}) - (b.cmask + {c}) == b.tcmask - b.cmask;
  }

  lemma RegisterTransientKeepsRegistry(b: Buf, c: nat, first: nat)
    requires Registry(b) && c < MAX_CONSUMERS && c !in b.tcmask && c < |b.nextOut|
    ensures Registry(RegisterTransient(b, c, first))
  {
    assert (b.tcmask + {c}) - b.cmask == (b.tcmask - b.cmask) + {c};
  }

  /** `delete_consumer` does not check its argument. The registry survives exactly when the number
      was registered; an unregistered number makes the counters lie for good. */
  lemma UnregisterKeepsRegistry(b: Buf, c: nat)
    requires Registry(b)
    ensures Registry(Unregister(b, c)) <==> c in b.tcmask
  {
    if c !in b.tcmask {
      assert Unregister(b, c).tcmask == b.tcmask;
    } else if c in b.cmask {
      UnregisterRegular(b, c);
    } else {
      UnregisterTransient(b, c);
    }
  }

  lemma UnregisterRegular(b: Buf, c: nat)
    requires Registry(b) && c in b.cmask
    ensures Registry(Unregister(b, c))
  {
    var u := Unregister(b, c);
    assert u.tcmask - u.cmask == b.tcmask - b.cmask;
  }

  lemma UnregisterTransient(b: Buf, c: nat)
    requires Registry(b) && c in b.tcmask && c !in b.cmask
    ensures Registry(Unregister(b, c))
  {
    var u := Unregister(b, c);
    assert c !in b.cmask16 && u.cmask16 == b.cmask16;
    assert u.tcmask - u.cmask == (b.tcmask - b.cmask) - {c};
  }

  /** There is never a 128th consumer. */
  lemma RegistryBound(b: Buf)
    requires Registry(b)
    ensures b.consumers <= MAX_CONSUMERS
  {
    NumbersCard(MAX_CONSUMERS);
    var all := Numbers(MAX_CONSUMERS);
    assert b.tcmask <= all;
    assert b.tcmask < all || b.tcmask == all;
    if b.tcmask < all {
      SubsetCard(b.tcmask, all);
    }
  }

  // ---- free space -------------------------------------------------------------------------

  /** Free blocks as `bfree` sees them from consumer c. */
  function FreeFor(b: Buf, c: nat): int
    requires Shaped(b) && c < MAX_CONSUMERS
  {
    var n := |b.slots|;
    var d := b.nextIn - b.nextOut[c];
    if d < 0 then -d
    else if d == 0 then (if b.slots[b.nextOut[c]].busy == {} then n else 0)
    else n - d
  }

  /** The least of them over the regular consumers below i; the ring size when there are none. */
  function LeastFree(b: Buf, i: nat): (r: int)
    requires Shaped(b) && i <= MAX_CONSUMERS
    ensures forall c: nat :: c < i && c in b.cmask ==> r <= FreeFor(b, c)
    ensures r == |b.slots| || exists c: nat :: c < i && c in b.cmask && r == FreeFor(b, c)
    ensures r <= |b.slots|
  {
    if i == 0 then |b.slots|
    else
      var r := LeastFree(b, i - 1);
      if i - 1 in b.cmask && FreeFor(b, i - 1) < r then FreeFor(b, i - 1) else r
  }
}
