/** Every producer step keeps the invariant. */
module CircProduction {
  import opened Ring
  import opened CircState
  import opened CircProtocol
  import opened CircInvariant
  import opened CircSteps

  // ---- frames -----------------------------------------------------------------------------

  /** Registration and everything the readers themselves own is as it was. */
  ghost predicate SameMembers(s: Sys, t: Sys) {
    && t.readers == s.readers && t.ctl == s.ctl && t.byParts == s.byParts
    && t.b.cmask == s.b.cmask && t.b.cmask16 == s.b.cmask16 && t.b.tcmask == s.b.tcmask
    && t.b.consumers == s.b.consumers && t.b.transients == s.b.transients && t.b.fasts == s.b.fasts
    && t.b.nextOut == s.b.nextOut && t.b.nextOut16 == s.b.nextOut16
    && t.b.blockSize == s.b.blockSize
  }

  /** A step that publishes nothing: at most the contents of unwanted blocks have changed. */
  ghost predicate Private(s: Sys, t: Sys)
    requires WellSized(s) && WellSized(t)
  {
    && SameMembers(s, t) && Blocks(t) == Blocks(s)
    && t.log == s.log && t.parts == s.parts && t.b.nextIn16 == s.b.nextIn16
    && Publishing(t.prod) == Publishing(s.prod)
    && (forall k :: 0 <= k < Blocks(s) ==>
          && t.b.slots[k].busy == s.b.slots[k].busy && t.b.slots[k].busy16 == s.b.slots[k].busy16
          && (s.b.slots[k].busy != {} ==> t.b.slots[k].content == s.b.slots[k].content))
  }

  lemma PrivateKeeps(s: Sys, t: Sys)
    requires Inv(s) && WellSized(t) && Private(s, t)
    requires StoreOk(t) && InvFree(t)
    ensures Inv(t)
  {
    forall c: nat | c < MAX_CONSUMERS ensures ConsumerOk(t, c) {
      PrivateConsumer(s, t, c);
    }
    assert InvNumbers(t);
    assert InvMasks(t);
    assert InvControl(t);
  }

  lemma PrivateConsumer(s: Sys, t: Sys, c: nat)
    requires WellSized(s) && Whole(s) >= 0 && WellSized(t) && Private(s, t) && c < MAX_CONSUMERS && ConsumerOk(s, c)
    ensures ConsumerOk(t, c)
  {
    assert ReaderOk(t, c) && FastOk(t, c);
    forall k, j | 0 <= k < Blocks(t) && 0 <= j < PARTS
      ensures t.byParts && !Leftover(t, k, c) ==> (c in t.b.slots[k].busy16[j] <==> WantedPart(t, k, j, c))
    {
      assert OwnPart(t, k, j) == OwnPart(s, k, j);
    }
    assert BusyOk(t, c);
  }

  // ---- filling a block --------------------------------------------------------------------

  lemma BeginFillKeeps(s: Sys, t: Sys)
    requires Inv(s) && Enabled(s, BeginFill) && t == DoBeginFill(s)
    ensures Inv(t)
  {
    forall k, j: nat | t.byParts && 0 <= k < Blocks(t) && j < PARTS ensures PartOk(t, k, j) {
      assert PartOk(s, k, j);
    }
    forall p: nat | Counted(t, p) ensures SeqNumOk(t, p) {
      assert SeqNumOk(s, p);
    }
    PrivateKeeps(s, t);
  }

  /** Replacing the content of the slot being filled. */
  lemma FillingKeepsStore(s: Sys, t: Sys, c: Content)
    requires WellSized(s) && StoreOk(s) && s.prod.Filling?
    requires |c.slices| == PARTS && |c.props16| == PARTS
    requires t == s.(b := SetContent(s.b, s.prod.slot, c), prod := t.prod)
    requires t.prod == s.prod || t.prod == Filled(s.prod.slot, s.prod.part)
    requires c.bytes <= s.b.blockSize
    requires var o := s.b.slots[s.prod.slot].content;
             s.byParts ==> forall j :: 0 <= j < PARTS && j != s.prod.part ==>
               c.slices[j] == o.slices[j] && c.props16[j] == o.props16[j]
    requires t.prod.Filled? || s.b.nextIn16 > 0 ==> c.prop.seqNum == s.b.puts
    ensures WellSized(t) && StoreOk(t)
  {
    FillingKeepsHist(s, t);
    forall k, j: nat | t.byParts && 0 <= k < Blocks(t) && j < PARTS ensures PartOk(t, k, j) {
      assert PartOk(s, k, j);
    }
  }

  lemma FillingKeepsHist(s: Sys, t: Sys)
    requires WellSized(s) && InvIndex(s) && InvHist(s) && s.prod.Filling?
    requires WellSized(t) && Whole(t) >= 0 && Blocks(t) == Blocks(s)
    requires t.log == s.log && t.hist == s.hist && t.b.puts == s.b.puts
    requires t.b.drops == s.b.drops && t.b.nextIn == s.b.nextIn && t.b.nextIn16 == s.b.nextIn16
    requires t.prod == s.prod || t.prod == Filled(s.prod.slot, s.prod.part)
    requires t.prod.Filled? || s.b.nextIn16 > 0 ==> t.b.slots[t.b.nextIn].content.prop.seqNum == t.b.puts
    ensures InvHist(t)
  {
    forall p: nat | Counted(t, p) ensures SeqNumOk(t, p) {
      assert SeqNumOk(s, p);
    }
  }

  lemma ScribbleKeeps(s: Sys, junk: Bytes, t: Sys)
    requires Inv(s) && Enabled(s, Scribble(junk)) && t == DoScribble(s, junk)
    ensures Inv(t)
  {
    FillingKeepsStore(s, t, Torn(s.b.slots[s.prod.slot].content, s.byParts, s.prod.part, junk));
    PrivateKeeps(s, t);
  }

  lemma FinishFillKeeps(s: Sys, data: Bytes, arg: PropArg, t: Sys)
    requires Inv(s) && Enabled(s, FinishFill(data, arg)) && t == DoFinishFill(s, data, arg)
    ensures Inv(t)
  {
    FillingKeepsStore(s, t, t.b.slots[s.prod.slot].content);
    PrivateKeeps(s, t);
  }

  // ---- dropping ---------------------------------------------------------------------------

  lemma HistGrows(h: seq<Event>, e: Event)
    ensures CountStored(h + [e]) == CountStored(h) + (if e.Stored? then 1 else 0)
    ensures forall q :: 0 <= q <= |h| ==> (h + [e])[..q] == h[..q]
  {
    assert (h + [e])[..|h|] == h;
  }

  lemma SeeTakenKeeps(s: Sys, t: Sys)
    requires Inv(s) && Enabled(s, SeeTaken) && t == s.(prod := Dropping)
    ensures Inv(t)
  {
    forall p: nat | Counted(t, p) ensures SeqNumOk(t, p) {
      assert SeqNumOk(s, p);
    }
    PrivateKeeps(s, t);
  }

  lemma CountDropKeeps(s: Sys, t: Sys)
    requires Inv(s) && Enabled(s, CountDrop) && t == DoCountDrop(s)
    ensures Inv(t)
  {
    HistGrows(s.hist, Dropped);
    forall p: nat | Counted(t, p) ensures SeqNumOk(t, p) {
      assert SeqNumOk(s, p);
    }
    PrivateKeeps(s, t);
  }

  // ---- publishing -------------------------------------------------------------------------

  lemma PublishBusyStore(s: Sys, t: Sys)
    requires WellSized(s) && StoreOk(s) && Enabled(s, PublishBusy) && t == DoPublishBusy(s)
    ensures WellSized(t) && StoreOk(t) && InvFree(t)
  {
    PublishBusyContent(s, t);
    PublishBusyHist(s, t);
    forall k, j: nat | t.byParts && 0 <= k < Blocks(t) && j < PARTS ensures PartOk(t, k, j) {
      assert PartOk(s, k, j);
      assert OwnPart(t, k, j) == OwnPart(s, k, j);
    }
  }

  lemma PublishBusyContent(s: Sys, t: Sys)
    requires WellSized(s) && StoreOk(s) && Enabled(s, PublishBusy) && t == DoPublishBusy(s)
    ensures WellSized(t) && InvIndex(t) && InvContent(t) && BeginsEmpty(t.log, Blocks(t))
  {
    StillBeginsEmpty(s.log, Blocks(s), s.b.slots[s.prod.slot].content);
    forall k: nat | k < Blocks(s)
      ensures Own(|t.log|, Blocks(t), k) == if k == s.prod.slot then |s.log| else Own(|s.log|, Blocks(s), k)
    {
      OwnStep(|s.log|, Blocks(s), k);
    }
  }

  lemma PublishBusyHist(s: Sys, t: Sys)
    requires WellSized(s) && InvIndex(s) && InvHist(s) && Enabled(s, PublishBusy) && t == DoPublishBusy(s)
    ensures WellSized(t) && Whole(t) >= 0 && InvHist(t)
  {
    forall p: nat | Counted(t, p) ensures SeqNumOk(t, p) {
      assert SeqNumOk(s, p);
    }
  }

  lemma PublishBusyConsumer(s: Sys, t: Sys, c: nat)
    requires Basis(s, c) && Enabled(s, PublishBusy) && t == DoPublishBusy(s)
    ensures WellSized(t) && Whole(t) >= 0 && ConsumerOk(t, c)
  {
    var n, slot := Blocks(s), s.prod.slot;
    assert c !in s.b.slots[slot].busy;
    assert !Wanted(s, slot, c);
    assert ReaderOk(t, c) by {
      var r := s.readers[c];
      if c in s.b.tcmask {
        assert t.log[r.origin..r.pos] == s.log[r.origin..r.pos];
      }
    }
    PublishBusyMask(s, t, c);
    PublishBusyBits(s, t, c);
  }

  lemma PublishBusyMask(s: Sys, t: Sys, c: nat)
    requires Basis(s, c) && Enabled(s, PublishBusy) && t == DoPublishBusy(s)
    ensures WellSized(t) && BusyOk(t, c)
  {
    forall k | 0 <= k < Blocks(t) ensures c in t.b.slots[k].busy <==> Wanted(t, k, c) {
      OwnStep(|s.log|, Blocks(s), k);
    }
  }

  lemma PublishBusyBits(s: Sys, t: Sys, c: nat)
    requires Basis(s, c) && Enabled(s, PublishBusy) && t == DoPublishBusy(s)
    ensures WellSized(t) && Whole(t) >= 0 && FastOk(t, c) && PartBitsOk(t, c)
  {
    forall k, j | 0 <= k < Blocks(t) && 0 <= j < PARTS
      ensures t.byParts ==> (c in t.b.slots[k].busy16[j] <==> WantedPart(t, k, j, c))
    {
      assert OwnPart(t, k, j) == OwnPart(s, k, j);
    }
  }

  lemma PublishBusyKeeps(s: Sys, t: Sys)
    requires Inv(s) && Enabled(s, PublishBusy) && t == DoPublishBusy(s)
    ensures Inv(t)
  {
    PublishBusyStore(s, t);
    forall c: nat | c < MAX_CONSUMERS ensures ConsumerOk(t, c) {
      HasBasis(s, c);
      PublishBusyConsumer(s, t, c);
    }
    assert InvNumbers(t);
  }

  lemma PublishAdvanceStore(s: Sys, t: Sys)
    requires WellSized(s) && StoreOk(s) && Enabled(s, PublishAdvance) && t == DoPublishAdvance(s)
    ensures WellSized(t) && StoreOk(t) && InvFree(t)
  {
    PublishAdvanceHist(s, t);
    PublishAdvanceParts(s, t);
  }

  lemma PublishAdvanceParts(s: Sys, t: Sys)
    requires WellSized(s) && InvIndex(s) && InvParts(s) && Enabled(s, PublishAdvance) && t == DoPublishAdvance(s)
    ensures WellSized(t) && Whole(t) >= 0 && InvParts(t)
  {
    forall k, j: nat | t.byParts && 0 <= k < Blocks(t) && j < PARTS ensures PartOk(t, k, j) {
      assert PartOk(s, k, j);
    }
  }

  lemma PublishAdvanceHist(s: Sys, t: Sys)
    requires WellSized(s) && InvIndex(s) && InvHist(s) && Enabled(s, PublishAdvance) && t == DoPublishAdvance(s)
    ensures WellSized(t) && Whole(t) >= 0 && InvHist(t)
  {
    HistGrows(s.hist, Stored);
    forall p: nat | Counted(t, p) ensures SeqNumOk(t, p) {
      if Counted(s, p) {
        assert SeqNumOk(s, p);
      } else {
        assert t.hist[..|s.hist|] == s.hist;
      }
    }
  }

  lemma PublishAdvanceConsumer(s: Sys, t: Sys, c: nat)
    requires Basis(s, c) && Enabled(s, PublishAdvance) && t == DoPublishAdvance(s)
    ensures WellSized(t) && Whole(t) >= 0 && ConsumerOk(t, c)
  {
    PublishAdvanceReader(s, t, c);
    PublishAdvanceFast(s, t, c);
    PublishAdvanceMask(s, t, c);
    PublishAdvanceBits(s, t, c);
  }

  lemma PublishAdvanceBits(s: Sys, t: Sys, c: nat)
    requires Basis(s, c) && Enabled(s, PublishAdvance) && t == DoPublishAdvance(s)
    ensures WellSized(t) && Whole(t) >= 0 && PartBitsOk(t, c)
  {
    forall k, j | 0 <= k < Blocks(t) && 0 <= j < PARTS
      ensures t.byParts ==> (c in t.b.slots[k].busy16[j] <==> WantedPart(t, k, j, c))
    {
      assert t.byParts ==> OwnPart(t, k, j) == OwnPart(s, k, j);
    }
  }

  lemma PublishAdvanceReader(s: Sys, t: Sys, c: nat)
    requires Basis(s, c) && Enabled(s, PublishAdvance) && t == DoPublishAdvance(s)
    ensures WellSized(t) && Whole(t) >= 0 && ReaderOk(t, c)
  {
  }

  lemma PublishAdvanceFast(s: Sys, t: Sys, c: nat)
    requires Basis(s, c) && Enabled(s, PublishAdvance) && t == DoPublishAdvance(s)
    ensures WellSized(t) && Whole(t) >= 0 && FastOk(t, c)
  {
  }

  lemma PublishAdvanceMask(s: Sys, t: Sys, c: nat)
    requires Basis(s, c) && Enabled(s, PublishAdvance) && t == DoPublishAdvance(s)
    ensures WellSized(t) && BusyOk(t, c)
  {
  }

  lemma PublishAdvanceKeeps(s: Sys, t: Sys)
    requires Inv(s) && Enabled(s, PublishAdvance) && t == DoPublishAdvance(s)
    ensures Inv(t)
  {
    PublishAdvanceStore(s, t);
    forall c: nat | c < MAX_CONSUMERS ensures ConsumerOk(t, c) {
      HasBasis(s, c);
      PublishAdvanceConsumer(s, t, c);
    }
    assert InvNumbers(t);
  }

  /** Publishing a part changes the owner of that part only. */
  lemma OwnPartStep(s: Sys, t: Sys, k: nat, j: nat)
    requires WellSized(s) && InvIndex(s) && Enabled(s, PublishPart) && t == DoPublishPart(s) && WellSized(t)
    requires k < Blocks(s) && j < PARTS
    ensures Whole(t) >= 0
    ensures OwnPart(t, k, j) == if k == s.prod.slot && j == s.prod.part then Whole(s) else OwnPart(s, k, j)
    ensures s.prod.slot == Idx(Whole(s), Blocks(s)) && |s.parts| == PARTS * Whole(s) + s.prod.part
  {
    if s.prod.Advanced? {
      OwnStep(Whole(s), Blocks(s), k);
    }
  }

  lemma PublishPartParts(s: Sys, t: Sys)
    requires WellSized(s) && InvIndex(s) && InvParts(s) && Enabled(s, PublishPart) && t == DoPublishPart(s)
    ensures WellSized(t) && InvIndex(t) && InvParts(t)
  {
    assert InvIndex(t);
    forall k, j: nat | 0 <= k < Blocks(t) && j < PARTS ensures PartOk(t, k, j) {
      assert PartOk(s, k, j);
      OwnPartStep(s, t, k, j);
    }
  }

  lemma PublishPartStore(s: Sys, t: Sys)
    requires WellSized(s) && StoreOk(s) && InvFree(s) && Enabled(s, PublishPart) && t == DoPublishPart(s)
    ensures WellSized(t) && StoreOk(t) && InvFree(t)
  {
    PublishPartParts(s, t);
    forall p: nat | Counted(t, p) ensures SeqNumOk(t, p) {
      assert SeqNumOk(s, p);
    }
  }

  lemma PublishPartFast(s: Sys, t: Sys, c: nat)
    requires Basis(s, c) && Enabled(s, PublishPart) && t == DoPublishPart(s)
    ensures WellSized(t) && FastOk(t, c)
  {
    if c in s.b.cmask16 {
      var r, i := s.readers[c], NextPart(s, c);
      assert t.parts[r.start..i] == s.parts[r.start..i];
    }
  }

  lemma PublishPartReader(s: Sys, t: Sys, c: nat)
    requires Basis(s, c) && Enabled(s, PublishPart) && t == DoPublishPart(s)
    ensures WellSized(t) && ReaderOk(t, c)
  {
  }

  lemma PublishPartMask(s: Sys, t: Sys, c: nat)
    requires Basis(s, c) && Enabled(s, PublishPart) && t == DoPublishPart(s)
    ensures WellSized(t) && BusyOk(t, c)
  {
  }

  lemma PublishPartConsumer(s: Sys, t: Sys, c: nat)
    requires Basis(s, c) && Enabled(s, PublishPart) && t == DoPublishPart(s)
    ensures WellSized(t) && Whole(t) >= 0 && ConsumerOk(t, c)
  {
    PublishPartReader(s, t, c);
    PublishPartMask(s, t, c);
    PublishPartFast(s, t, c);
    PublishPartBits(s, t, c);
  }

  lemma PublishPartBits(s: Sys, t: Sys, c: nat)
    requires Basis(s, c) && Enabled(s, PublishPart) && t == DoPublishPart(s)
    ensures WellSized(t) && Whole(t) >= 0 && PartBitsOk(t, c)
  {
    OwnPartStep(s, t, 0, 0);
    forall k, j | 0 <= k < Blocks(t) && 0 <= j < PARTS ensures c in t.b.slots[k].busy16[j] <==> WantedPart(t, k, j, c) {
      PublishPartBit(s, t, c, k, j);
    }
  }

  lemma PublishPartBit(s: Sys, t: Sys, c: nat, k: nat, j: nat)
    requires Basis(s, c) && Enabled(s, PublishPart) && t == DoPublishPart(s) && k < Blocks(s) && j < PARTS
    ensures WellSized(t) && Whole(t) >= 0 && (c in t.b.slots[k].busy16[j] <==> WantedPart(t, k, j, c))
  {
    if k == s.prod.slot && j == s.prod.part {
      PublishPartNew(s, t, c, k, j);
    } else {
      PublishPartOther(s, t, c, k, j);
    }
  }

  lemma PublishPartNew(s: Sys, t: Sys, c: nat, k: nat, j: nat)
    requires Basis(s, c) && Enabled(s, PublishPart) && t == DoPublishPart(s) && k < Blocks(s) && j < PARTS
    requires k == s.prod.slot && j == s.prod.part
    ensures WellSized(t) && Whole(t) >= 0 && (c in t.b.slots[k].busy16[j] <==> WantedPart(t, k, j, c))
  {
    OwnPartStep(s, t, k, j);
    assert t.b.slots[k].busy16[j] == s.b.cmask16;
  }

  lemma PublishPartOther(s: Sys, t: Sys, c: nat, k: nat, j: nat)
    requires Basis(s, c) && Enabled(s, PublishPart) && t == DoPublishPart(s) && k < Blocks(s) && j < PARTS
    requires k != s.prod.slot || j != s.prod.part
    ensures WellSized(t) && Whole(t) >= 0 && (c in t.b.slots[k].busy16[j] <==> WantedPart(t, k, j, c))
  {
    OwnPartStep(s, t, k, j);
    assert t.b.slots[k].busy16[j] == s.b.slots[k].busy16[j];
    assert WantedPart(t, k, j, c) <==> WantedPart(s, k, j, c);
  }

  lemma PublishPartKeeps(s: Sys, t: Sys)
    requires Inv(s) && Enabled(s, PublishPart) && t == DoPublishPart(s)
    ensures Inv(t)
  {
    PublishPartStore(s, t);
    forall c: nat | c < MAX_CONSUMERS ensures ConsumerOk(t, c) {
      HasBasis(s, c);
      PublishPartConsumer(s, t, c);
    }
    assert InvNumbers(t);
  }
}
