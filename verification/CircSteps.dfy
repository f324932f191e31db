/** Every step keeps the invariant. */
module CircSteps {
  import opened Ring
  import opened CircState
  import opened CircProtocol
  import opened CircInvariant

  // ---- frames -----------------------------------------------------------------------------

  /** Nothing the producer owns has changed. */
  ghost predicate SameStore(s: Sys, t: Sys)
    requires WellSized(s) && WellSized(t)
  {
    && t.byParts == s.byParts && t.prod == s.prod && t.log == s.log && t.parts == s.parts && t.hist == s.hist
    && t.b.blockSize == s.b.blockSize && t.b.nextIn == s.b.nextIn && t.b.nextIn16 == s.b.nextIn16
    && t.b.puts == s.b.puts && t.b.drops == s.b.drops
    && Blocks(t) == Blocks(s)
    && (forall k :: 0 <= k < Blocks(s) ==> t.b.slots[k].content == s.b.slots[k].content)
  }

  lemma KeepStore(s: Sys, t: Sys)
    requires WellSized(s) && WellSized(t) && StoreOk(s) && SameStore(s, t)
    requires Publishing(t.prod) ==> t.ctl.Free?
    ensures StoreOk(t)
  {
    forall k, j: nat | t.byParts && 0 <= k < Blocks(t) && j < PARTS ensures PartOk(t, k, j) {
      assert PartOk(s, k, j);
    }
    forall p: nat | Counted(t, p) ensures SeqNumOk(t, p) {
      assert SeqNumOk(s, p);
    }
  }

  /** Seen by consumer number d, the two states agree. */
  ghost predicate SameFor(s: Sys, t: Sys, d: nat)
    requires WellSized(s) && WellSized(t) && Blocks(t) == Blocks(s) && d < MAX_CONSUMERS
  {
    && t.readers[d] == s.readers[d] && t.b.nextOut[d] == s.b.nextOut[d] && t.b.nextOut16[d] == s.b.nextOut16[d]
    && (d in t.b.tcmask <==> d in s.b.tcmask)
    && (d in t.b.cmask <==> d in s.b.cmask)
    && (d in t.b.cmask16 <==> d in s.b.cmask16)
    && (forall k :: 0 <= k < Blocks(s) ==> (d in t.b.slots[k].busy <==> d in s.b.slots[k].busy))
    && (forall k, j :: 0 <= k < Blocks(s) && 0 <= j < PARTS ==>
          (d in t.b.slots[k].busy16[j] <==> d in s.b.slots[k].busy16[j]))
    && (!s.ctl.Free? && s.ctl.c == d ==> t.ctl == s.ctl)
    && (!t.ctl.Free? && t.ctl.c == d ==> t.ctl == s.ctl)
  }

  lemma KeepConsumer(s: Sys, t: Sys, d: nat)
    requires WellSized(s) && WellSized(t) && Whole(s) >= 0 && d < MAX_CONSUMERS
    requires SameStore(s, t) && SameFor(s, t, d) && ConsumerOk(s, d)
    ensures ConsumerOk(t, d)
  {
    assert FastOk(t, d);
    assert ReaderOk(t, d);
    forall k, j | 0 <= k < Blocks(t) && 0 <= j < PARTS
      ensures t.byParts && !Leftover(t, k, d) ==> (d in t.b.slots[k].busy16[j] <==> WantedPart(t, k, j, d))
    {
      assert OwnPart(t, k, j) == OwnPart(s, k, j);
    }
    assert BusyOk(t, d);
  }

  /** A step on behalf of one consumer number c. */
  ghost predicate OnlyFor(s: Sys, t: Sys, c: nat)
    requires WellSized(s) && WellSized(t) && Blocks(t) == Blocks(s)
  {
    && (forall d: nat :: d < MAX_CONSUMERS && d != c ==> SameFor(s, t, d))
    && (forall k, d: nat :: 0 <= k < Blocks(s) && d in t.b.slots[k].busy && d != c ==> d in s.b.slots[k].busy)
    && (forall k, j, d: nat {:trigger d in t.b.slots[k].busy16[j]} ::
          0 <= k < Blocks(s) && 0 <= j < PARTS && d in t.b.slots[k].busy16[j] ==> d in s.b.slots[k].busy16[j])
  }

  lemma ConsumerStep(s: Sys, t: Sys, c: nat)
    requires Inv(s) && WellSized(t) && SameStore(s, t) && c < MAX_CONSUMERS
    requires OnlyFor(s, t, c) && ConsumerOk(t, c)
    requires Publishing(t.prod) ==> t.ctl.Free?
    requires c !in t.b.slots[t.b.nextIn].busy || c in s.b.slots[s.b.nextIn].busy
    requires InvMasks(t) && InvControl(t)
    ensures Inv(t)
  {
    KeepStore(s, t);
    forall d: nat | d < MAX_CONSUMERS ensures ConsumerOk(t, d) {
      if d != c {
        KeepConsumer(s, t, d);
      }
    }
    if Partial(t) {
      assert s.b.slots[s.b.nextIn].busy == {};
      forall x: nat ensures x !in t.b.slots[t.b.nextIn].busy {
        assert x !in s.b.slots[s.b.nextIn].busy;
      }
    }
    assert InvNumbers(t);
  }

  // ---- consumer steps ---------------------------------------------------------------------

  /** The part of the invariant that concerns one consumer number and the indices. */
  ghost predicate Basis(s: Sys, c: nat) {
    && WellSized(s) && c < MAX_CONSUMERS
    && InvIndex(s) && InvFree(s) && InvMasks(s)
    && (c in s.b.tcmask && !s.ctl.Free? ==> s.ctl.c != c)
    && ConsumerOk(s, c)
  }

  lemma HasBasis(s: Sys, c: nat)
    requires Inv(s) && c < MAX_CONSUMERS
    ensures Basis(s, c)
  {
  }

  /** A registered consumer whose bit is set on the block it stands at finds there the block of
      its own position, and nobody is writing it. */
  lemma AtPosition(s: Sys, c: nat)
    requires Basis(s, c) && c in s.b.tcmask && !s.readers[c].pc.Cleared?
    requires c in s.b.slots[s.b.nextOut[c]].busy
    ensures Own(|s.log|, Blocks(s), s.b.nextOut[c]) == s.readers[c].pos < |s.log|
    ensures !(s.b.nextOut[c] == s.b.nextIn && Partial(s))
  {
    var r, n, k := s.readers[c], Blocks(s), s.b.nextOut[c];
    var o := Own(|s.log|, n, k);
    assert Wanted(s, k, c);
    OwnIsSlot(|s.log|, n, k);
    IdxInjective(r.pos, o, n);
  }

  /** Standing at a block whose whole-block bit is set, it is the only slot of that position. */
  lemma OtherSlots(s: Sys, c: nat, k: nat)
    requires WellSized(s) && c < MAX_CONSUMERS && k < Blocks(s)
    requires s.b.nextOut[c] == Idx(s.readers[c].pos, Blocks(s)) && k != s.b.nextOut[c]
    ensures Own(|s.log|, Blocks(s), k) != s.readers[c].pos
    ensures Whole(s) >= 0 ==> Own(Whole(s), Blocks(s), k) != s.readers[c].pos
  {
    if Own(|s.log|, Blocks(s), k) == s.readers[c].pos {
      OwnIsSlot(|s.log|, Blocks(s), k);
    }
    if Whole(s) >= 0 && Own(Whole(s), Blocks(s), k) == s.readers[c].pos {
      OwnIsSlot(Whole(s), Blocks(s), k);
    }
  }

  lemma KeepControl(s: Sys, t: Sys)
    requires WellSized(s) && WellSized(t) && InvControl(s)
    requires t.ctl == s.ctl && t.log == s.log && Blocks(t) == Blocks(s) && t.b.tcmask == s.b.tcmask
    ensures InvControl(t)
  {
  }

  /** What a step on behalf of c alone must show; the rest follows from the frame. */
  ghost predicate StepFor(s: Sys, t: Sys, c: nat) {
    && WellSized(s) && WellSized(t) && c < MAX_CONSUMERS
    && SameStore(s, t) && OnlyFor(s, t, c)
    && t.ctl == s.ctl && t.b.tcmask == s.b.tcmask && t.b.cmask == s.b.cmask && t.b.cmask16 == s.b.cmask16
    && t.b.transients == s.b.transients && t.b.fasts == s.b.fasts
    && (c in t.b.slots[t.b.nextIn].busy ==> c in s.b.slots[s.b.nextIn].busy)
  }

  lemma StepForKeeps(s: Sys, t: Sys, c: nat)
    requires Inv(s) && StepFor(s, t, c)
    requires ConsumerOk(t, c)
    ensures Inv(t)
  {
    KeepControl(s, t);
    ConsumerStep(s, t, c);
  }

  lemma GetFrame(s: Sys, c: nat, t: Sys)
    requires WellSized(s) && Enabled(s, Get(c)) && t == DoGet(s, c)
    ensures StepFor(s, t, c) && SamePartBits(s, t, c)
  {
  }

  lemma GetShare(s: Sys, c: nat, t: Sys)
    requires Basis(s, c) && Enabled(s, Get(c)) && t == DoGet(s, c)
    ensures StepFor(s, t, c) && ConsumerOk(t, c)
  {
    GetFrame(s, c, t);
    AtPosition(s, c);
    assert ReaderOk(t, c) && FastOk(t, c) && BusyOk(t, c);
    KeepPartBits(s, t, c);
  }

  ghost predicate SamePartBits(s: Sys, t: Sys, c: nat)
    requires WellSized(s) && WellSized(t) && Blocks(t) == Blocks(s) && c < MAX_CONSUMERS
  {
    && t.ctl == s.ctl && t.b.cmask16 == s.b.cmask16
    && (c in s.b.cmask16 ==> t.readers[c].pos == s.readers[c].pos && t.readers[c].start == s.readers[c].start)
    && (forall k, j :: 0 <= k < Blocks(s) && 0 <= j < PARTS ==>
          (c in t.b.slots[k].busy16[j] <==> c in s.b.slots[k].busy16[j]))
  }

  /** The part bits of c depend only on its start, its position and the store. */
  lemma KeepPartBits(s: Sys, t: Sys, c: nat)
    requires WellSized(s) && WellSized(t) && Whole(s) >= 0 && c < MAX_CONSUMERS && PartBitsOk(s, c)
    requires SameStore(s, t) && SamePartBits(s, t, c)
    ensures PartBitsOk(t, c)
  {
    forall k, j | 0 <= k < Blocks(t) && 0 <= j < PARTS
      ensures t.byParts && !Leftover(t, k, c) ==> (c in t.b.slots[k].busy16[j] <==> WantedPart(t, k, j, c))
    {
      assert OwnPart(t, k, j) == OwnPart(s, k, j);
    }
  }

  lemma UnlockFrame(s: Sys, c: nat, t: Sys)
    requires WellSized(s) && c !in s.b.cmask16 && Enabled(s, Unlock(c)) && t == DoUnlock(s, c)
    ensures StepFor(s, t, c) && SamePartBits(s, t, c)
  {
  }

  lemma UnlockReader(s: Sys, c: nat, t: Sys)
    requires Basis(s, c) && InvContent(s) && Enabled(s, Unlock(c)) && t == DoUnlock(s, c)
    ensures WellSized(t) && ReaderOk(t, c) && FastOk(t, c)
  {
    var r := s.readers[c];
    AtPosition(s, c);
    assert s.b.slots[s.b.nextOut[c]].content == s.log[r.pos];
    SliceGrows(s.log, r.origin, r.pos);
  }

  lemma UnlockShare(s: Sys, c: nat, t: Sys)
    requires Basis(s, c) && InvContent(s) && Enabled(s, Unlock(c)) && t == DoUnlock(s, c)
    ensures StepFor(s, t, c) && ConsumerOk(t, c)
  {
    UnlockFrame(s, c, t);
    UnlockReader(s, c, t);
    AtPosition(s, c);
    KeepPartBits(s, t, c);
    LeavesBlock(s, t, c);
  }

  /** Giving up one block and its slot's bit leaves the bits of all other blocks as they should be. */
  lemma LeavesBlock(s: Sys, t: Sys, c: nat)
    requires Basis(s, c) && StepFor(s, t, c) && c in s.b.tcmask
    requires s.b.nextOut[c] == Idx(s.readers[c].pos, Blocks(s))
    requires Own(|s.log|, Blocks(s), s.b.nextOut[c]) == s.readers[c].pos
    requires t.readers[c].pos == s.readers[c].pos + 1 && t.readers[c].marks == s.readers[c].marks
    requires c !in t.b.slots[s.b.nextOut[c]].busy
    requires forall k :: 0 <= k < Blocks(s) && k != s.b.nextOut[c] ==>
      (c in t.b.slots[k].busy <==> c in s.b.slots[k].busy)
    ensures BusyOk(t, c)
  {
    forall k | 0 <= k < Blocks(s) ensures c in t.b.slots[k].busy <==> Wanted(t, k, c) {
      if k != s.b.nextOut[c] {
        OtherSlots(s, c, k);
      }
    }
  }

  lemma AdvanceFrame(s: Sys, c: nat, t: Sys)
    requires WellSized(s) && Enabled(s, Advance(c)) && t == DoAdvance(s, c)
    ensures StepFor(s, t, c) && SamePartBits(s, t, c)
  {
  }

  lemma AdvanceShare(s: Sys, c: nat, t: Sys)
    requires Basis(s, c) && Enabled(s, Advance(c)) && t == DoAdvance(s, c)
    ensures StepFor(s, t, c) && ConsumerOk(t, c)
  {
    AdvanceFrame(s, c, t);
    AdvanceReader(s, c, t);
    assert BusyOk(t, c);
    KeepPartBits(s, t, c);
  }

  lemma AdvanceReader(s: Sys, c: nat, t: Sys)
    requires Basis(s, c) && Enabled(s, Advance(c)) && t == DoAdvance(s, c) && WellSized(t)
    ensures ReaderOk(t, c) && FastOk(t, c)
  {
  }

  /** The part a fast consumer may take is the next one of its sequence, and is not being replaced. */
  lemma AtPart(s: Sys, c: nat, k: nat, j: nat)
    requires Basis(s, c) && InvNumbers(s) && Enabled(s, Get16(c)) && k == s.b.nextOut[c] && j == s.b.nextOut16[c]
    ensures s.byParts && OwnPart(s, k, j) == s.readers[c].pos && !Replacing(s, k, j)
  {
    assert s.byParts by {
      assert c in s.b.slots[k].busy16[j];
    }
    assert WantedPart(s, k, j, c);
    NotLapped(s, c);
    OwnPartAt(s, k, j, s.readers[c].pos);
  }

  lemma OwnPartAt(s: Sys, k: nat, j: nat, pos: nat)
    requires WellSized(s) && InvIndex(s) && s.byParts && k < Blocks(s) && j < PARTS && k == Idx(pos, Blocks(s))
    requires pos <= OwnPart(s, k, j) && Whole(s) - pos <= Blocks(s)
    requires Partial(s) || Publishing(s.prod) ==> Whole(s) - pos < Blocks(s)
    ensures OwnPart(s, k, j) == pos && !Replacing(s, k, j)
  {
    var q, n := OwnPart(s, k, j), Blocks(s);
    if q == Whole(s) {
      IdxAdd(pos, q - pos, n);
    } else {
      OwnIsSlot(Whole(s), n, k);
      IdxInjective(pos, q, n);
    }
  }

  /** While a block is partly written, no fast consumer is a whole ring behind it. */
  lemma NotLapped(s: Sys, c: nat)
    requires Basis(s, c) && c in s.b.cmask16 && s.byParts && s.readers[c].pc.Idle?
    ensures Whole(s) - s.readers[c].pos <= Blocks(s)
    ensures Partial(s) || Publishing(s.prod) ==> Whole(s) - s.readers[c].pos < Blocks(s)
  {
    if Partial(s) {
      assert c !in s.b.slots[s.b.nextIn].busy;
      assert !Wanted(s, s.b.nextIn, c);
    }
  }

  lemma Get16Frame(s: Sys, c: nat, t: Sys)
    requires WellSized(s) && InvMasks(s) && Enabled(s, Get16(c)) && t == DoGet16(s, c)
    ensures StepFor(s, t, c) && SamePartBits(s, t, c)
  {
  }

  lemma Get16Share(s: Sys, c: nat, t: Sys)
    requires Basis(s, c) && InvNumbers(s) && InvParts(s) && Enabled(s, Get16(c)) && t == DoGet16(s, c)
    ensures StepFor(s, t, c) && ConsumerOk(t, c)
  {
    Get16Frame(s, c, t);
    var r, k, j := s.readers[c], s.b.nextOut[c], s.b.nextOut16[c];
    AtPart(s, c, k, j);
    assert PartOk(s, k, j);
    var i := NextPart(s, c);
    SliceGrows(s.parts, r.start, i);
    assert ReaderOk(t, c) && FastOk(t, c) && BusyOk(t, c);
    KeepPartBits(s, t, c);
  }

  /** After part 15 of its block the whole block has been published. */
  lemma AtBlockEnd(s: Sys, c: nat)
    requires Basis(s, c) && Enabled(s, Unlock16(c))
    ensures s.byParts && s.readers[c].pos < Whole(s)
    ensures Own(|s.log|, Blocks(s), s.b.nextOut[c]) == s.readers[c].pos
    ensures c in s.b.slots[s.b.nextOut[c]].busy
  {
    OwnOfIdx(|s.log|, Blocks(s), s.readers[c].pos);
    assert Wanted(s, s.b.nextOut[c], c);
  }

  lemma Unlock16Frame(s: Sys, c: nat, t: Sys)
    requires WellSized(s) && Enabled(s, Unlock16(c)) && t == DoUnlock16(s, c)
    ensures StepFor(s, t, c)
  {
  }

  lemma Unlock16Share(s: Sys, c: nat, t: Sys)
    requires Basis(s, c) && Enabled(s, Unlock16(c)) && t == DoUnlock16(s, c)
    ensures StepFor(s, t, c) && ConsumerOk(t, c)
  {
    Unlock16Frame(s, c, t);
    AtBlockEnd(s, c);
    assert ReaderOk(t, c) && FastOk(t, c);
    LeavesBlock(s, t, c);
    Unlock16Parts(s, c, t);
  }

  lemma Unlock16Parts(s: Sys, c: nat, t: Sys)
    requires Basis(s, c) && Enabled(s, Unlock16(c)) && t == DoUnlock16(s, c)
    ensures WellSized(t) && Whole(t) >= 0 && PartBitsOk(t, c)
  {
    forall k, j | 0 <= k < Blocks(s) && 0 <= j < PARTS
      ensures c in t.b.slots[k].busy16[j] <==> WantedPart(t, k, j, c)
    {
      Unlock16Bit(s, c, k, j);
      assert OwnPart(t, k, j) == OwnPart(s, k, j);
    }
  }

  lemma Unlock16Bit(s: Sys, c: nat, k: nat, j: nat)
    requires Basis(s, c) && Enabled(s, Unlock16(c)) && k < Blocks(s) && j < PARTS
    ensures if k == s.b.nextOut[c] then OwnPart(s, k, j) <= s.readers[c].pos else OwnPart(s, k, j) != s.readers[c].pos
  {
    var r, n := s.readers[c], Blocks(s);
    AtBlockEnd(s, c);
    NotLapped(s, c);
    if k == s.b.nextOut[c] {
      OwnOfIdx(Whole(s), n, r.pos);
      IdxAdd(r.pos, Whole(s) - r.pos, n);
    } else {
      OtherSlots(s, c, k);
    }
  }

  // ---- the steps of a consumer keep the invariant ---------------------------------------------

  /** Taking hold of a block. */
  lemma GetKeeps(s: Sys, c: nat, t: Sys)
    requires Inv(s) && Enabled(s, Get(c)) && t == DoGet(s, c)
    ensures Inv(t)
  {
    HasBasis(s, c);
    GetShare(s, c, t);
    StepForKeeps(s, t, c);
  }

  /** Clearing the bit of a block that has been read, before the index moves. */
  lemma UnlockKeeps(s: Sys, c: nat, t: Sys)
    requires Inv(s) && Enabled(s, Unlock(c)) && t == DoUnlock(s, c)
    ensures Inv(t)
  {
    HasBasis(s, c);
    UnlockShare(s, c, t);
    StepForKeeps(s, t, c);
  }

  /** Moving the index, outside the lock. */
  lemma AdvanceKeeps(s: Sys, c: nat, t: Sys)
    requires Inv(s) && Enabled(s, Advance(c)) && t == DoAdvance(s, c)
    ensures Inv(t)
  {
    HasBasis(s, c);
    AdvanceShare(s, c, t);
    StepForKeeps(s, t, c);
  }

  /** Taking a part. */
  lemma Get16Keeps(s: Sys, c: nat, t: Sys)
    requires Inv(s) && Enabled(s, Get16(c)) && t == DoGet16(s, c)
    ensures Inv(t)
  {
    HasBasis(s, c);
    Get16Share(s, c, t);
    StepForKeeps(s, t, c);
  }

  /** Clearing all 17 bits of a block. */
  lemma Unlock16Keeps(s: Sys, c: nat, t: Sys)
    requires Inv(s) && Enabled(s, Unlock16(c)) && t == DoUnlock16(s, c)
    ensures Inv(t)
  {
    HasBasis(s, c);
    Unlock16Share(s, c, t);
    StepForKeeps(s, t, c);
  }
}
