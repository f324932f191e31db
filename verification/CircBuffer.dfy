/** The circular buffer object with the methods its threads call, one after the other. A wait on a
    condition variable appears as what is true once the wait is over. */
module CircBuffer {
  import opened Ring
  import opened CircState

  // ---- what the longer operations do to the shared fields ----------------------------------------

  /** A finished `put`. */
  function Stored(b: Buf, data: Bytes, arg: PropArg): Buf
    requires Shaped(b)
  {
    var k := b.nextIn;
    AdvanceIn(MarkBusy(SetContent(b, k, FillWhole(b.slots[k].content, data, arg, b.puts)), k))
  }

  /** A finished `put16th_dpscattered`; data are the bytes of the part. */
  function StoredPart(b: Buf, data: Bytes, arg: PropArg): Buf
    requires Shaped(b)
  {
    var k, j := b.nextIn, b.nextIn16;
    var b1 := SetContent(b, k, FillPart(b.slots[k].content, j, data, arg, b.puts));
    MarkPart(if j == PARTS - 1 then AdvanceIn(MarkBusy(b1, k)) else b1, k, j)
  }

  /** What a get that does not wait finds for consumer c. */
  function Nowait(b: Buf, c: nat): (r: int)
    requires Shaped(b) && c < MAX_CONSUMERS
    ensures r >= 0 <==> c in b.slots[b.nextOut[c]].busy
    ensures if r >= 0 then r == b.nextOut[c] else r == -1
  {
    if c in b.slots[b.nextOut[c]].busy then b.nextOut[c] else -1
  }

  /** The first k blocks cleaned of consumer c. */
  function CleanedTo(b: Buf, c: nat, k: nat): (r: Buf)
    requires k <= |b.slots|
    ensures |r.slots| == |b.slots|
  {
    if k == 0 then b else ClearBits(CleanedTo(b, c, k - 1), k - 1, c)
  }

  /** How far a look-back search has come. */
  datatype Search = Search(b: Buf, i: nat, first: int, bstart: int, blast: int)

  function SearchStep(s: Search, c: nat, gps: int, delta: int): (t: Search)
    requires s.i < |s.b.slots|
    ensures t.i < |t.b.slots| == |s.b.slots|
    ensures t.b == s.b.(slots := t.b.slots)
  {
    var p := s.b.slots[s.i].content.prop;
    var next := Succ(s.i, |s.b.slots|);
    if InPeriod(p, gps, delta) then
      Search(SetBit(s.b, s.i, c), next, if s.first < 0 then s.i else s.first,
             if s.first < 0 then p.gps else s.bstart, p.gps)
    else s.(i := next)
  }

  /** The search after k blocks, from the one after the block being filled. bstart and blast are left
      as they were as long as nothing is found. */
  function Searched(b: Buf, c: nat, gps: int, delta: int, k: nat, bstart: int, blast: int): (s: Search)
    requires Shaped(b)
    ensures s.i < |s.b.slots| == |b.slots|
    ensures s.b == b.(slots := s.b.slots)
  {
    if k == 0 then Search(b, Succ(b.nextIn, |b.slots|), -1, bstart, blast)
    else SearchStep(Searched(b, c, gps, delta, k - 1, bstart, blast), c, gps, delta)
  }

  lemma {:induction false} SearchedKeeps(b: Buf, c: nat, gps: int, delta: int, k: nat, bstart: int, blast: int)
    requires Shaped(b) && k < |b.slots|
    ensures var s := Searched(b, c, gps, delta, k, bstart, blast);
      && Shaped(s.b) && s.first < |b.slots|
      && s.i == (if b.nextIn + 1 + k < |b.slots| then b.nextIn + 1 + k else b.nextIn + 1 + k - |b.slots|)
      && (s.first < 0 ==> s.b == b && s.bstart == bstart && s.blast == blast)
  {
    if k > 0 {
      SearchedKeeps(b, c, gps, delta, k - 1, bstart, blast);
    }
  }

  /** `invariant(level)` as a condition on the fields. */
  ghost predicate Consistent(b: Buf, level: bool) {
    && (|b.slots| > 0 || b.blockSize > 0)
    && 0 <= b.consumers <= MAX_CONSUMERS
    && (level ==>
          && |b.nextOut| == MAX_CONSUMERS
          && (forall c: nat :: c < MAX_CONSUMERS && c in b.cmask ==> b.nextOut[c] <= |b.slots|)
          && b.consumers - |Below(b.cmask, MAX_CONSUMERS)| == b.transients
          && b.nextIn <= |b.slots|
          && (forall k :: 0 <= k < |b.slots| ==>
                b.slots[k].content.bytes <= b.blockSize && b.slots[k].busy - b.tcmask == {}))
  }

  /** What `invariant(1)` asks of a buffer: a ring or a block size, no more than 127 consumers, indices no further than
      the end of the ring, consumers counted as regular and transient ones, and no block too long or wanted by anybody
      who is not registered. */
  lemma ConsistentMeans(b: Buf)
    requires |b.nextOut| == MAX_CONSUMERS
    ensures Consistent(b, true) <==>
      && (|b.slots| > 0 || b.blockSize > 0) && 0 <= b.consumers <= 127
      && b.nextIn <= |b.slots| && (forall c: nat :: c in b.cmask && c < 127 ==> b.nextOut[c] <= |b.slots|)
      && b.consumers == |set c | c in b.cmask && c < 127| + b.transients
      && (forall k :: 0 <= k < |b.slots| ==> b.slots[k].content.bytes <= b.blockSize)
      && (forall k, c :: 0 <= k < |b.slots| && c in b.slots[k].busy ==> c in b.tcmask)
    ensures Consistent(b, false) <==> (|b.slots| > 0 || b.blockSize > 0) && 0 <= b.consumers <= 127
  {
    assert Below(b.cmask, MAX_CONSUMERS) == set c | c in b.cmask && c < 127;
    forall k | 0 <= k < |b.slots|
      ensures b.slots[k].busy - b.tcmask == {} <==> forall c :: c in b.slots[k].busy ==> c in b.tcmask
    {
      NothingLeft(b.slots[k].busy, b.tcmask);
    }
  }

  lemma NothingLeft(a: set<nat>, b: set<nat>)
    ensures a - b == {} <==> forall c :: c in a ==> c in b
  {
    if a - b == {} {
      forall c | c in a ensures c in b {
        assert c !in a - b;
      }
    }
  }

  /** The numbers of a mask below i. */
  function Below(mask: set<nat>, i: nat): set<nat> {
    set c | c in mask && c < i
  }

  lemma BelowCount(mask: set<nat>, i: nat)
    ensures Below(mask, 0) == {}
    ensures |Below(mask, i + 1)| == |Below(mask, i)| + if i in mask then 1 else 0
  {
    if i in mask {
      assert Below(mask, i + 1) == Below(mask, i) + {i};
    } else {
      assert Below(mask, i + 1) == Below(mask, i);
    }
  }

  // ---- the object --------------------------------------------------------------------------------

  class Circ {
    const blockSize: nat
    const slots: array<Slot>
    const nextOut: array<nat>
    const nextOut16: array<nat>
    var nextIn: nat
    var nextIn16: nat
    var puts: nat
    var drops: nat
    var cmask: set<nat>
    var cmask16: set<nat>
    var tcmask: set<nat>
    var consumers: int
    var transients: int
    var fasts: int

    ghost function Abs(): Buf
      reads this, slots, nextOut, nextOut16
    {
      Buf(blockSize, slots[..], nextIn, nextIn16, puts, drops, cmask, cmask16, tcmask,
          consumers, transients, fasts, nextOut[..], nextOut16[..])
    }

    ghost predicate Valid()
      reads this, slots, nextOut, nextOut16
    {
      nextOut != nextOut16 && Shaped(Abs())
    }

    /** buffer_malloc */
    constructor (numConsumers: nat, blocks: nat, size: nat)
      requires numConsumers <= MAX_CONSUMERS && blocks > 0
      ensures Valid() && fresh(slots) && fresh(nextOut) && fresh(nextOut16)
      ensures Abs() == InitBuf(numConsumers, blocks, size)
      ensures blockSize % 8 == 0 && size <= blockSize < size + 8
    {
      blockSize := if size % 8 != 0 then size + (8 - size % 8) else size;
      slots := new Slot[blocks](_ => EmptySlot());
      nextOut := new nat[MAX_CONSUMERS](_ => 0);
      nextOut16 := new nat[MAX_CONSUMERS](_ => 0);
      nextIn, nextIn16, puts, drops, transients, fasts := 0, 0, 0, 0, 0, 0;
      consumers := numConsumers;
      cmask16, cmask, tcmask := {}, {}, {};
      new;
      for j := 0 to numConsumers
        invariant tcmask == Numbers(j)
        invariant Abs() == InitBuf(numConsumers, blocks, size).(cmask := {}, tcmask := Numbers(j))
      {
        tcmask := tcmask + {j};
      }
      cmask := tcmask;
    }

    /** Filling the block that is next, which nobody wants any more. */
    method Fill(nbi: nat, data: Bytes, arg: PropArg)
      requires Valid() && nbi < slots.Length
      modifies slots
      ensures Abs() == SetContent(old(Abs()), nbi, FillWhole(old(slots[nbi]).content, data, arg, puts))
    {
      var c := slots[nbi].content;
      c := c.(data := data, bytes := |data|);
      if arg.Given? {
        c := c.(prop := arg.prop);
      }
      c := c.(prop := c.prop.(seqNum := puts));
      slots[nbi] := slots[nbi].(content := c);
    }

    /** put, once the block is free */
    method Put(data: Bytes, arg: PropArg) returns (nbi: nat)
      requires Valid() && |data| <= blockSize && slots[nextIn].busy == {}
      modifies this, slots
      ensures Valid() && nbi == old(nextIn) && Abs() == Stored(old(Abs()), data, arg)
    {
      nbi := nextIn;
      Fill(nbi, data, arg);
      slots[nbi] := slots[nbi].(busy := cmask);
      SuccIsMod(nextIn, slots.Length);
      nextIn := (nextIn + 1) % slots.Length;
      puts := puts + 1;
    }

    /** put_nowait */
    method PutNowait(data: Bytes, arg: PropArg) returns (ret: int)
      requires Valid() && |data| <= blockSize
      modifies this, slots
      ensures Valid()
      ensures old(slots[nextIn]).busy == {} ==> ret == old(nextIn) && Abs() == Stored(old(Abs()), data, arg)
      ensures old(slots[nextIn]).busy != {} ==> ret == -1 && Abs() == CountDropped(old(Abs()))
    {
      var nbi := nextIn;
      ret := nbi;
      if slots[nbi].busy == {} {
        Fill(nbi, data, arg);
        slots[nbi] := slots[nbi].(busy := cmask);
        SuccIsMod(nextIn, slots.Length);
        nextIn := (nextIn + 1) % slots.Length;
      } else {
        drops := drops + 1;
        ret := -1;
      }
      puts := puts + 1;
    }

    /** One part of the block that is next. */
    method FillSlice(nbi: nat, nbi16: nat, data: Bytes, arg: PropArg)
      requires Valid() && nbi < slots.Length && nbi16 < PARTS
      modifies slots
      ensures Abs() == SetContent(old(Abs()), nbi, FillPart(old(slots[nbi]).content, nbi16, data, arg, puts))
    {
      var c := slots[nbi].content;
      c := c.(slices := c.slices[nbi16 := data]);
      var p := c.props16[nbi16];
      if arg.Given? {
        p := arg.prop;
      }
      p := p.(seqNum := puts);
      c := c.(props16 := c.props16[nbi16 := p]);
      if nbi16 == 0 {
        c := c.(bytes := |data|);
        if arg.Given? {
          c := c.(prop := arg.prop);
        }
        c := c.(prop := c.prop.(seqNum := puts));
      } else {
        c := c.(bytes := c.bytes + |data|);
      }
      slots[nbi] := slots[nbi].(content := c);
    }

    /** put16th_dpscattered, once the block is free; the bytes of the part are those the scatter loop
        writes */
    method Put16th(data: Bytes, arg: PropArg) returns (nbi: nat)
      requires Valid() && slots[nextIn].busy == {}
      modifies this, slots
      ensures Valid() && nbi == old(nextIn) && Abs() == StoredPart(old(Abs()), data, arg)
    {
      nbi := nextIn;
      var nbi16 := nextIn16;
      FillSlice(nbi, nbi16, data, arg);
      if nbi16 == PARTS - 1 {
        slots[nbi] := slots[nbi].(busy := cmask);
        SuccIsMod(nextIn, slots.Length);
        nextIn := (nextIn + 1) % slots.Length;
        puts := puts + 1;
      }
      SuccIsMod(nextIn16, PARTS);
      nextIn16 := (nextIn16 + 1) % PARTS;
      slots[nbi] := slots[nbi].(busy16 := slots[nbi].busy16[nbi16 := cmask16]);
    }

    /** get, once the block has been filled for c */
    method Get(c: nat) returns (nbo: nat)
      requires Valid() && c < MAX_CONSUMERS && c in slots[nextOut[c]].busy
      ensures nbo == nextOut[c]
    {
      nbo := nextOut[c];
    }

    /** get_nowait */
    method GetNowait(c: nat) returns (ret: int)
      requires Valid() && c < MAX_CONSUMERS
      ensures ret == Nowait(Abs(), c)
    {
      var nbo := nextOut[c];
      if c in slots[nbo].busy {
        ret := nbo;
      } else {
        ret := -1;
      }
    }

    /** get16th, once the part has been filled for c: `nbo << 4 | nbo16th` */
    method Get16th(c: nat) returns (ret: nat)
      requires Valid() && c < MAX_CONSUMERS && nextOut16[c] < PARTS
      requires c in slots[nextOut[c]].busy16[nextOut16[c]]
      modifies nextOut16
      ensures Valid() && Abs() == SetOut16(old(Abs()), c, old(nextOut16[c]) + 1)
      ensures ret / 16 == nextOut[c] && ret % 16 == old(nextOut16[c])
    {
      ret := nextOut[c] * 16 + nextOut16[c];
      nextOut16[c] := nextOut16[c] + 1;
    }

    /** unlock */
    method Unlock(c: nat)
      requires Valid() && c < MAX_CONSUMERS
      modifies slots, nextOut
      ensures Valid() && Abs() == AdvanceOut(ClearBit(old(Abs()), old(nextOut[c]), c), c)
    {
      var nbo := nextOut[c];
      slots[nbo] := slots[nbo].(busy := slots[nbo].busy - {c});
      SuccIsMod(nbo, slots.Length);
      nextOut[c] := (nextOut[c] + 1) % slots.Length;
    }

    /** noop, once the block has been filled for c */
    method Noop(c: nat) returns (nbo: nat)
      requires Valid() && c < MAX_CONSUMERS && c in slots[nextOut[c]].busy
      modifies slots, nextOut
      ensures Valid() && nbo == old(nextOut[c])
      ensures Abs() == AdvanceOut(ClearBit(old(Abs()), old(nextOut[c]), c), c)
    {
      nbo := nextOut[c];
      Unlock(c);
    }

    /** The seventeen bits of c in one block, cleared one by one. */
    method CleanBlock(k: nat, c: nat)
      requires Valid() && k < slots.Length
      modifies slots
      ensures Valid() && Abs() == ClearBits(old(Abs()), k, c)
    {
      ghost var was := slots[k];
      var parts := slots[k].busy16;
      for j := 0 to PARTS
        invariant |parts| == PARTS
        invariant forall i :: 0 <= i < j ==> parts[i] == was.busy16[i] - {c}
        invariant forall i :: j <= i < PARTS ==> parts[i] == was.busy16[i]
      {
        parts := parts[j := parts[j] - {c}];
      }
      slots[k] := slots[k].(busy16 := parts, busy := slots[k].busy - {c});
      assert slots[k] == CleanSlot(was, c);
    }

    /** unlock16th */
    method Unlock16th(c: nat)
      requires Valid() && c < MAX_CONSUMERS
      modifies slots, nextOut, nextOut16
      ensures Valid()
      ensures Abs() == SetOut16(AdvanceOut(ClearBits(old(Abs()), old(nextOut[c]), c), c), c, 0)
    {
      var nbo := nextOut[c];
      CleanBlock(nbo, c);
      SuccIsMod(nbo, slots.Length);
      nextOut[c] := (nextOut[c] + 1) % slots.Length;
      nextOut16[c] := 0;
    }

    /** The search for the lowest number not in tcmask. */
    method FindNumber() returns (i: nat)
      requires Registry(Abs()) && consumers < MAX_CONSUMERS
      ensures i == LowestFree(tcmask)
    {
      var free := LowestFree(tcmask);
      i := 0;
      while i in tcmask
        invariant i <= free
        decreases free - i
      {
        i := i + 1;
      }
    }

    /** The masks, counters and indices of a new consumer. */
    method SignOn(i: nat, fast: bool)
      requires Valid() && i < MAX_CONSUMERS
      modifies this, nextOut, nextOut16
      ensures Valid() && Abs() == Register(old(Abs()), i, fast)
    {
      cmask := cmask + {i};
      tcmask := tcmask + {i};
      consumers := consumers + 1;
      nextOut[i] := nextIn;
      if fast {
        cmask16 := cmask16 + {i};
        nextOut16[i] := nextIn16;
        fasts := fasts + 1;
      }
    }

    /** add_consumer */
    method AddConsumer(fast: bool) returns (c: int)
      requires Valid() && Registry(Abs())
      modifies this, nextOut, nextOut16
      ensures Valid() && Registry(Abs())
      ensures old(consumers) >= MAX_CONSUMERS ==> c == -1 && Abs() == old(Abs())
      ensures old(consumers) < MAX_CONSUMERS ==>
        c == LowestFree(old(tcmask)) && Abs() == Register(old(Abs()), LowestFree(old(tcmask)), fast)
    {
      if consumers >= MAX_CONSUMERS {
        return -1;
      }
      var i := FindNumber();
      RegisterKeepsRegistry(Abs(), i, fast);
      SignOn(i, fast);
      c := i;
    }

    /** delete_consumer */
    method DeleteConsumer(c: nat)
      requires Valid() && c < MAX_CONSUMERS
      modifies this, slots
      ensures Valid() && Abs() == CleanedTo(Unregister(old(Abs()), c), c, slots.Length)
    {
      if c in cmask16 {
        fasts := fasts - 1;
        cmask16 := cmask16 - {c};
      }
      if c !in cmask {
        transients := transients - 1;
      } else {
        cmask := cmask - {c};
      }
      tcmask := tcmask - {c};
      consumers := consumers - 1;
      assert Abs() == Unregister(old(Abs()), c);
      for i := 0 to slots.Length
        invariant Valid() && Abs() == CleanedTo(Unregister(old(Abs()), c), c, i)
        modifies slots
      {
        CleanBlock(i, c);
      }
    }

    /** One block looked at. */
    method LookAt(i: nat, c: nat, gps: int, delta: int, first0: int, bstart0: int, blast0: int)
      returns (next: nat, first: int, bstart: int, blast: int)
      requires Valid() && i < slots.Length && first0 < slots.Length
      modifies slots
      ensures Valid() && next < slots.Length && first < slots.Length
      ensures Search(Abs(), next, first, bstart, blast) ==
              SearchStep(Search(old(Abs()), i, first0, bstart0, blast0), c, gps, delta)
    {
      first, bstart, blast := first0, bstart0, blast0;
      var p := slots[i].content.prop;
      if gps <= p.gps && p.gps < gps + delta {
        slots[i] := slots[i].(busy := slots[i].busy + {c});
        if first < 0 {
          first := i;
          bstart := p.gps;
        }
        blast := p.gps;
      }
      SuccIsMod(i, slots.Length);
      next := (i + 1) % slots.Length;
    }

    /** The search of add_transient_consumer. */
    method LookBack(c: nat, gps: int, delta: int, bstart0: int, blast0: int)
      returns (first: int, bstart: int, blast: int)
      requires Valid()
      modifies slots
      ensures Valid()
      ensures Search(Abs(), nextIn, first, bstart, blast) ==
              Searched(old(Abs()), c, gps, delta, slots.Length - 1, bstart0, blast0)
      ensures first < slots.Length
      ensures first < 0 ==> Abs() == old(Abs()) && bstart == bstart0 && blast == blast0
    {
      ghost var b := Abs();
      first, bstart, blast := -1, bstart0, blast0;
      SuccIsMod(nextIn, slots.Length);
      var i: nat := (nextIn + 1) % slots.Length;
      ghost var k := 0;
      SearchedKeeps(b, c, gps, delta, k, bstart0, blast0);
      while i != nextIn
        invariant Valid() && 0 <= k < slots.Length && i < slots.Length && first < slots.Length
        invariant Searched(b, c, gps, delta, k, bstart0, blast0) == Search(Abs(), i, first, bstart, blast)
        invariant i == if nextIn + 1 + k < slots.Length then nextIn + 1 + k else nextIn + 1 + k - slots.Length
        decreases slots.Length - k
      {
        i, first, bstart, blast := LookAt(i, c, gps, delta, first, bstart, blast);
        k := k + 1;
        SearchedKeeps(b, c, gps, delta, k, bstart0, blast0);
      }
      SearchedKeeps(b, c, gps, delta, k, bstart0, blast0);
    }

    /** The mask, counters and index of a new transient consumer. */
    method SignOnTransient(c: nat, first: nat)
      requires Valid() && c < MAX_CONSUMERS && first < slots.Length
      modifies this, nextOut
      ensures Valid() && Abs() == RegisterTransient(old(Abs()), c, first)
    {
      tcmask := tcmask + {c};
      consumers := consumers + 1;
      transients := transients + 1;
      nextOut[c] := first;
    }

    /** add_transient_consumer for a time period (delta is not 0). bstart0 and blast0 are what the
        caller's variables held. */
    method AddTransientConsumer(gps: int, delta: int, bstart0: int, blast0: int)
      returns (ret: int, bstart: int, blast: int)
      requires Valid() && Registry(Abs()) && delta != 0
      modifies this, slots, nextOut
      ensures Valid() && Registry(Abs())
      ensures old(consumers) >= MAX_CONSUMERS ==> ret == -1
      ensures old(consumers) < MAX_CONSUMERS && old(puts) == 0 ==> ret == -2
      ensures ret < 0 ==> Abs() == old(Abs()) && bstart == bstart0 && blast == blast0
      ensures old(consumers) < MAX_CONSUMERS && old(puts) != 0 ==>
        var c := LowestFree(old(tcmask));
        var s := Searched(old(Abs()), c, gps, delta, slots.Length - 1, bstart0, blast0);
        if s.first < 0 then ret == -2
        else ret == c && Abs() == RegisterTransient(s.b, c, s.first) && bstart == s.bstart && blast == s.blast
    {
      bstart, blast := bstart0, blast0;
      if consumers >= MAX_CONSUMERS {
        return -1, bstart, blast;
      }
      if puts == 0 {
        return -2, bstart, blast;
      }
      var c := FindNumber();
      var first: int;
      first, bstart, blast := LookBack(c, gps, delta, bstart0, blast0);
      if first < 0 {
        return -2, bstart, blast;
      }
      RegisterTransientKeepsRegistry(Abs(), c, first);
      SignOnTransient(c, first);
      ret := c;
    }

    /** bfree */
    method Bfree() returns (free: int)
      requires Valid()
      ensures free == LeastFree(Abs(), MAX_CONSUMERS)
    {
      free := slots.Length;
      for i := 0 to MAX_CONSUMERS
        invariant free == LeastFree(Abs(), i)
      {
        if i in cmask {
          var b := nextIn - nextOut[i];
          var fb: int;
          if b < 0 {
            fb := -b;
          } else if b == 0 {
            fb := if slots[nextOut[i]].busy == {} then slots.Length else 0;
          } else {
            fb := slots.Length - b;
          }
          if fb < free {
            free := fb;
          }
        }
      }
    }

    /** The consumers of cmask, counted and checked; the count starts from all consumers. */
    method CountConsumers() returns (ok: bool, count: int)
      requires nextOut.Length == MAX_CONSUMERS
      ensures ok <==> forall c: nat :: c < MAX_CONSUMERS && c in cmask ==> nextOut[c] <= slots.Length
      ensures ok ==> count == consumers - |Below(cmask, MAX_CONSUMERS)|
    {
      count := consumers;
      BelowCount(cmask, 0);
      for i := 0 to MAX_CONSUMERS
        invariant count == consumers - |Below(cmask, i)|
        invariant forall c: nat :: c < i && c in cmask ==> nextOut[c] <= slots.Length
      {
        BelowCount(cmask, i);
        if i in cmask {
          count := count - 1;
          if nextOut[i] > slots.Length {
            return false, count;
          }
        }
      }
      ok := true;
    }

    /** Every block has a possible size, and nobody but registered consumers in its mask. */
    method CheckBlocks() returns (ok: bool)
      ensures ok <==> forall k :: 0 <= k < slots.Length ==>
        slots[k].content.bytes <= blockSize && slots[k].busy - tcmask == {}
    {
      for i := 0 to slots.Length
        invariant forall k :: 0 <= k < i ==> slots[k].content.bytes <= blockSize && slots[k].busy - tcmask == {}
      {
        if slots[i].content.bytes > blockSize || slots[i].busy - tcmask != {} {
          return false;
        }
      }
      ok := true;
    }

    /** invariant(level) */
    method Invariant(level: bool) returns (ok: bool)
      requires nextOut.Length == MAX_CONSUMERS
      ensures ok <==> Consistent(Abs(), level)
    {
      if slots.Length == 0 && blockSize == 0 {
        return false;
      }
      if consumers < 0 || consumers > MAX_CONSUMERS {
        return false;
      }
      if level {
        var fine, count := CountConsumers();
        if !fine {
          return false;
        }
        if count != transients {
          return false;
        }
        if nextIn > slots.Length {
          return false;
        }
        fine := CheckBlocks();
        if !fine {
          return false;
        }
      }
      ok := true;
    }
  }
}
