/** Adding and deleting consumers, slot by slot, keeps the invariant. */
module CircMembership {
  import opened Ring
  import opened CircState
  import opened CircProtocol
  import opened CircInvariant
  import opened CircSteps

  /** What a membership step for number c must show; the rest follows from the frame. */
  ghost predicate MemberStep(s: Sys, t: Sys, c: nat) {
    && WellSized(s) && WellSized(t) && c < MAX_CONSUMERS
    && SameStore(s, t) && OnlyFor(s, t, c)
    && !Publishing(t.prod)
    && (c in t.b.slots[t.b.nextIn].busy ==> c in s.b.slots[s.b.nextIn].busy)
  }

  lemma MemberStepKeeps(s: Sys, t: Sys, c: nat)
    requires Inv(s) && MemberStep(s, t, c) && InvMasks(t) && InvControl(t) && ConsumerOk(t, c)
    ensures Inv(t)
  {
    ConsumerStep(s, t, c);
  }

  /** A number that is not registered, and not being marked or deleted, has no bit set. */
  lemma NoBits(s: Sys, c: nat)
    requires WellSized(s) && Whole(s) >= 0 && InvMasks(s) && InvNumbers(s) && c < MAX_CONSUMERS && c !in s.b.tcmask
    requires s.ctl.Free? && BusyOk(s, c) && PartBitsOk(s, c)
    ensures forall k :: 0 <= k < Blocks(s) ==> c !in s.b.slots[k].busy
    ensures forall k, j :: 0 <= k < Blocks(s) && 0 <= j < PARTS ==> c !in s.b.slots[k].busy16[j]
  {
  }

  // ---- add_consumer -----------------------------------------------------------------------

  lemma AddSized(s: Sys, fast: bool, t: Sys, c: nat)
    requires WellSized(s) && Enabled(s, Add(fast)) && t == DoAdd(s, fast) && c == LowestFree(s.b.tcmask)
    ensures WellSized(t) && c < MAX_CONSUMERS && c !in s.b.tcmask
    ensures SameStore(s, t) && t.ctl == s.ctl && t.prod == s.prod && t.b.slots == s.b.slots && t.b.nextIn == s.b.nextIn
  {
  }

  lemma AddFrame(s: Sys, fast: bool, t: Sys, c: nat)
    requires WellSized(s) && InvMasks(s) && Enabled(s, Add(fast)) && t == DoAdd(s, fast)
    requires c == LowestFree(s.b.tcmask)
    ensures MemberStep(s, t, c) && c !in s.b.tcmask && t.ctl == s.ctl
  {
    AddSized(s, fast, t, c);
    forall d: nat | d < MAX_CONSUMERS && d != c ensures SameFor(s, t, d) {
      AddSameFor(s, fast, t, c, d);
    }
  }

  lemma AddSameFor(s: Sys, fast: bool, t: Sys, c: nat, d: nat)
    requires WellSized(s) && Enabled(s, Add(fast)) && t == DoAdd(s, fast) && c == LowestFree(s.b.tcmask)
    requires d < MAX_CONSUMERS && d != c && WellSized(t) && Blocks(t) == Blocks(s)
    ensures SameFor(s, t, d)
  {
  }

  lemma AddConsumerOk(s: Sys, fast: bool, t: Sys, c: nat)
    requires WellSized(s) && InvMasks(s) && InvIndex(s) && InvNumbers(s) && Enabled(s, Add(fast)) && t == DoAdd(s, fast)
    requires c == LowestFree(s.b.tcmask)
    requires ConsumerOk(s, c)
    ensures WellSized(t) && Whole(t) >= 0 && ConsumerOk(t, c)
  {
    AddFrame(s, fast, t, c);
    NoBits(s, c);
    AddReader(s, fast, t, c);
  }

  lemma AddReader(s: Sys, fast: bool, t: Sys, c: nat)
    requires WellSized(s) && InvIndex(s) && InvMasks(s) && Enabled(s, Add(fast)) && t == DoAdd(s, fast)
    requires c == LowestFree(s.b.tcmask) && WellSized(t) && c < MAX_CONSUMERS
    requires forall k :: 0 <= k < Blocks(s) ==> c !in s.b.slots[k].busy
    ensures ReaderOk(t, c) && FastOk(t, c) && BusyOk(t, c)
  {
  }

  lemma AddKeeps(s: Sys, fast: bool, t: Sys)
    requires Inv(s) && Enabled(s, Add(fast)) && t == DoAdd(s, fast)
    ensures Inv(t)
  {
    var c := LowestFree(s.b.tcmask);
    AddFrame(s, fast, t, c);
    AddConsumerOk(s, fast, t, c);
    RegisterKeepsRegistry(s.b, c, fast);
    MemberStepKeeps(s, t, c);
  }

  // ---- delete_consumer --------------------------------------------------------------------

  lemma DeleteBeginFrame(s: Sys, c: nat, t: Sys)
    requires WellSized(s) && InvMasks(s) && Enabled(s, DeleteBegin(c)) && t == DoDeleteBegin(s, c)
    ensures MemberStep(s, t, c) && InvControl(t)
  {
  }

  lemma DeleteBeginKeeps(s: Sys, c: nat, t: Sys)
    requires Inv(s) && Enabled(s, DeleteBegin(c)) && t == DoDeleteBegin(s, c)
    ensures Inv(t)
  {
    DeleteBeginFrame(s, c, t);
    UnregisterKeepsRegistry(s.b, c);
    assert ReaderOk(t, c) && FastOk(t, c) && BusyOk(t, c) && PartBitsOk(t, c);
    MemberStepKeeps(s, t, c);
  }

  lemma DeleteSlotFrame(s: Sys, t: Sys)
    requires WellSized(s) && InvMasks(s) && InvControl(s) && InvIndex(s)
    requires Enabled(s, DeleteSlot) && t == DoDeleteSlot(s)
    ensures MemberStep(s, t, s.ctl.c) && InvControl(t)
  {
  }

  lemma DeleteSlotConsumerOk(s: Sys, t: Sys)
    requires WellSized(s) && InvMasks(s) && InvControl(s) && InvIndex(s) && InvNumbers(s)
    requires Enabled(s, DeleteSlot) && t == DoDeleteSlot(s)
    requires ConsumerOk(s, s.ctl.c)
    ensures WellSized(t) && Whole(t) >= 0 && ConsumerOk(t, s.ctl.c)
  {
    DeleteSlotFrame(s, t);
    var c := s.ctl.c;
    assert ReaderOk(t, c) && FastOk(t, c) && BusyOk(t, c) && PartBitsOk(t, c);
  }

  lemma DeleteSlotKeeps(s: Sys, t: Sys)
    requires Inv(s) && Enabled(s, DeleteSlot) && t == DoDeleteSlot(s)
    ensures Inv(t)
  {
    DeleteSlotFrame(s, t);
    DeleteSlotConsumerOk(s, t);
    MemberStepKeeps(s, t, s.ctl.c);
  }

  lemma DeleteEndKeeps(s: Sys, t: Sys)
    requires Inv(s) && Enabled(s, DeleteEnd) && t == s.(ctl := Free)
    ensures Inv(t)
  {
    var c := s.ctl.c;
    assert ConsumerOk(s, c);
    assert ReaderOk(t, c) && FastOk(t, c) && BusyOk(t, c) && PartBitsOk(t, c);
    MemberStepKeeps(s, t, c);
  }

  // ---- add_transient_consumer -------------------------------------------------------------

  lemma MarkBeginKeeps(s: Sys, gps: int, delta: int, t: Sys)
    requires Inv(s) && Enabled(s, MarkBegin(gps, delta)) && t == DoMarkBegin(s, gps, delta)
    ensures Inv(t)
  {
    var c := LowestFree(s.b.tcmask);
    assert ConsumerOk(s, c);
    NoBits(s, c);
    MarkBeginConsumerOk(s, gps, delta, t, c);
    MemberStepKeeps(s, t, c);
  }

  lemma MarkBeginConsumerOk(s: Sys, gps: int, delta: int, t: Sys, c: nat)
    requires WellSized(s) && InvIndex(s) && InvMasks(s) && Enabled(s, MarkBegin(gps, delta))
    requires t == DoMarkBegin(s, gps, delta) && c == LowestFree(s.b.tcmask) && c !in s.b.tcmask && ConsumerOk(s, c)
    requires forall k :: 0 <= k < Blocks(s) ==> c !in s.b.slots[k].busy
    requires forall k, j :: 0 <= k < Blocks(s) && 0 <= j < PARTS ==> c !in s.b.slots[k].busy16[j]
    ensures WellSized(t) && Whole(t) >= 0 && ConsumerOk(t, c)
  {
    assert ReaderOk(t, c) && FastOk(t, c) && BusyOk(t, c);
  }

  /** The slot under the cursor holds the oldest position not looked at yet. */
  lemma AtCursor(t: nat, n: nat, i: nat, k: nat)
    requires i < n && k < n && i == Idx(t + 1 + k, n)
    ensures k < n - 1 ==> Own(t, n, i) == t - n + 1 + k
    ensures i == Idx(t, n) <==> k == n - 1
  {
    IdxAdd(t, 1 + k, n);
  }

  lemma SearchStep(m: Control, log: seq<Content>, n: nat, p: Prop)
    requires n > 0 && m.Marking? && m.first < n && m.i < n && SearchOk(m, log, n)
    requires m.i != Idx(|log|, n) && n <= |log| && p == log[Own(|log|, n, m.i)].prop
    ensures SearchOk(Looked(m, Own(|log|, n, m.i), n, p), log, n)
  {
    AtCursor(|log|, n, m.i, m.k);
    var m' := Looked(m, Own(|log|, n, m.i), n, p);
    assert m'.i == Idx(|log| + 1 + m'.k, n);
  }

  lemma MarkSlotMoves(s: Sys, t: Sys)
    requires WellSized(s) && InvControl(s) && Enabled(s, MarkSlot) && t == DoMarkSlot(s)
    ensures WellSized(t) && t.log == s.log && Blocks(t) == Blocks(s) && t.b.tcmask == s.b.tcmask
    ensures t.ctl == Looked(s.ctl, Own(|s.log|, Blocks(s), s.ctl.i), Blocks(s), s.b.slots[s.ctl.i].content.prop)
  {
  }

  lemma MarkSlotControl(s: Sys, t: Sys)
    requires WellSized(s) && InvControl(s) && InvIndex(s) && InvContent(s)
    requires Enabled(s, MarkSlot) && t == DoMarkSlot(s)
    ensures WellSized(t) && InvControl(t)
  {
    MarkSlotMoves(s, t);
    SearchStep(s.ctl, s.log, Blocks(s), s.b.slots[s.ctl.i].content.prop);
  }

  lemma MarkSlotFrame(s: Sys, t: Sys)
    requires WellSized(s) && InvMasks(s) && InvIndex(s)
    requires Enabled(s, MarkSlot) && t == DoMarkSlot(s)
    ensures MemberStep(s, t, s.ctl.c)
  {
  }

  lemma MarkSlotConsumerOk(s: Sys, t: Sys)
    requires WellSized(s) && InvMasks(s) && InvIndex(s) && InvControl(s)
    requires Enabled(s, MarkSlot) && t == DoMarkSlot(s)
    requires ConsumerOk(s, s.ctl.c)
    ensures WellSized(t) && Whole(t) >= 0 && ConsumerOk(t, s.ctl.c)
  {
    MarkSlotFrame(s, t);
    MarkSlotBits(s, t);
    var c := s.ctl.c;
    assert ReaderOk(t, c) && FastOk(t, c) && PartBitsOk(t, c);
  }

  lemma MarkSlotBits(s: Sys, t: Sys)
    requires WellSized(s) && InvIndex(s) && InvControl(s)
    requires Enabled(s, MarkSlot) && t == DoMarkSlot(s)
    requires BusyOk(s, s.ctl.c)
    ensures WellSized(t) && BusyOk(t, s.ctl.c)
  {
    AtCursor(|s.log|, Blocks(s), s.ctl.i, s.ctl.k);
    forall k | 0 <= k < Blocks(t) ensures s.ctl.c in t.b.slots[k].busy <==> Wanted(t, k, s.ctl.c) {
      assert k != s.ctl.i ==> Own(|s.log|, Blocks(s), k) != Own(|s.log|, Blocks(s), s.ctl.i);
    }
  }

  lemma MarkSlotKeeps(s: Sys, t: Sys)
    requires Inv(s) && Enabled(s, MarkSlot) && t == DoMarkSlot(s)
    ensures Inv(t)
  {
    MarkSlotFrame(s, t);
    MarkSlotControl(s, t);
    MarkSlotConsumerOk(s, t);
    MemberStepKeeps(s, t, s.ctl.c);
  }

  lemma MarkEndFrame(s: Sys, t: Sys)
    requires WellSized(s) && InvMasks(s) && InvIndex(s) && InvControl(s)
    requires Enabled(s, MarkEnd) && t == DoMarkEnd(s)
    ensures MemberStep(s, t, s.ctl.c) && InvControl(t)
  {
    if s.ctl.first >= 0 {
      assert |s.b.tcmask + {s.ctl.c}| == |s.b.tcmask| + 1;
      assert WellSized(t) && SameStore(s, t);
      forall d: nat | d < MAX_CONSUMERS && d != s.ctl.c ensures SameFor(s, t, d) {
        MarkEndSameFor(s, t, d);
      }
    }
  }

  lemma MarkEndSameFor(s: Sys, t: Sys, d: nat)
    requires WellSized(s) && Enabled(s, MarkEnd) && t == DoMarkEnd(s) && WellSized(t) && Blocks(t) == Blocks(s)
    requires s.ctl.first >= 0 && d < MAX_CONSUMERS && d != s.ctl.c
    ensures SameFor(s, t, d)
  {
  }

  lemma MarkEndConsumerOk(s: Sys, t: Sys)
    requires WellSized(s) && InvMasks(s) && InvIndex(s) && InvControl(s)
    requires Enabled(s, MarkEnd) && t == DoMarkEnd(s)
    requires ConsumerOk(s, s.ctl.c)
    ensures WellSized(t) && Whole(t) >= 0 && ConsumerOk(t, s.ctl.c)
  {
    var m := s.ctl;
    if m.first >= 0 {
      OwnIsSlot(|s.log|, Blocks(s), m.first);
    }
    MarkEndFrame(s, t);
    assert ReaderOk(t, m.c) && FastOk(t, m.c);
    MarkEndBits(s, t);
  }

  lemma MarkEndBits(s: Sys, t: Sys)
    requires WellSized(s) && InvMasks(s) && InvIndex(s) && InvControl(s)
    requires Enabled(s, MarkEnd) && t == DoMarkEnd(s) && WellSized(t) && Whole(t) >= 0
    requires BusyOk(s, s.ctl.c) && PartBitsOk(s, s.ctl.c)
    ensures BusyOk(t, s.ctl.c) && PartBitsOk(t, s.ctl.c)
  {
  }

  lemma MarkEndKeeps(s: Sys, t: Sys)
    requires Inv(s) && Enabled(s, MarkEnd) && t == DoMarkEnd(s)
    ensures Inv(t)
  {
    MarkEndFrame(s, t);
    MarkEndConsumerOk(s, t);
    RegisterTransientKeepsRegistry(s.b, s.ctl.c, if s.ctl.first < 0 then 0 else s.ctl.first);
    MemberStepKeeps(s, t, s.ctl.c);
  }
}
