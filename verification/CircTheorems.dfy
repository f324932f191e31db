/** What the protocol guarantees in every reachable state and over every run. */
module CircTheorems {
  import opened Ring
  import opened CircState
  import opened CircProtocol
  import opened CircInvariant
  import opened CircSteps
  import Members = CircMembership
  import Production = CircProduction

  lemma ProducerStepKeepsInv(s: Sys, a: Action)
    requires Inv(s) && Enabled(s, a)
    requires a.BeginFill? || a.Scribble? || a.FinishFill? || a.PublishBusy? || a.PublishAdvance? || a.PublishPart?
             || a.SeeTaken? || a.CountDrop?
    ensures Inv(Do(s, a))
  {
    var t := Do(s, a);
    match a
    case BeginFill => Production.BeginFillKeeps(s, t);
    case Scribble(junk) => Production.ScribbleKeeps(s, junk, t);
    case FinishFill(data, arg) => Production.FinishFillKeeps(s, data, arg, t);
    case PublishBusy => Production.PublishBusyKeeps(s, t);
    case PublishAdvance => Production.PublishAdvanceKeeps(s, t);
    case PublishPart => Production.PublishPartKeeps(s, t);
    case SeeTaken => Production.SeeTakenKeeps(s, t);
    case CountDrop => Production.CountDropKeeps(s, t);
  }

  lemma ConsumerStepKeepsInv(s: Sys, a: Action)
    requires Inv(s) && Enabled(s, a)
    requires a.Get? || a.Unlock? || a.Advance?
    ensures Inv(Do(s, a))
  {
    var t := Do(s, a);
    match a
    case Get(c) => GetKeeps(s, c, t);
    case Unlock(c) => UnlockKeeps(s, c, t);
    case Advance(c) => AdvanceKeeps(s, c, t);
  }

  lemma FastStepKeepsInv(s: Sys, a: Action)
    requires Inv(s) && Enabled(s, a)
    requires a.Get16? || a.Unlock16?
    ensures Inv(Do(s, a))
  {
    var t := Do(s, a);
    match a
    case Get16(c) => Get16Keeps(s, c, t);
    case Unlock16(c) => Unlock16Keeps(s, c, t);
  }

  lemma MemberStepKeepsInv(s: Sys, a: Action)
    requires Inv(s) && Enabled(s, a)
    requires a.Add? || a.DeleteBegin? || a.DeleteSlot? || a.DeleteEnd?
    ensures Inv(Do(s, a))
  {
    var t := Do(s, a);
    match a
    case Add(fast) => Members.AddKeeps(s, fast, t);
    case DeleteBegin(c) => Members.DeleteBeginKeeps(s, c, t);
    case DeleteSlot => Members.DeleteSlotKeeps(s, t);
    case DeleteEnd => Members.DeleteEndKeeps(s, t);
  }

  lemma SearchStepKeepsInv(s: Sys, a: Action)
    requires Inv(s) && Enabled(s, a)
    requires a.MarkBegin? || a.MarkSlot? || a.MarkEnd?
    ensures Inv(Do(s, a))
  {
    var t := Do(s, a);
    match a
    case MarkBegin(gps, delta) => Members.MarkBeginKeeps(s, gps, delta, t);
    case MarkSlot => Members.MarkSlotKeeps(s, t);
    case MarkEnd => Members.MarkEndKeeps(s, t);
  }

  lemma StepKeepsInv(s: Sys, a: Action)
    requires Inv(s) && Enabled(s, a)
    ensures Inv(Do(s, a))
  {
    if a.Get? || a.Unlock? || a.Advance? {
      ConsumerStepKeepsInv(s, a);
    } else if a.Get16? || a.Unlock16? {
      FastStepKeepsInv(s, a);
    } else if a.Add? || a.DeleteBegin? || a.DeleteSlot? || a.DeleteEnd? {
      MemberStepKeepsInv(s, a);
    } else if a.MarkBegin? || a.MarkSlot? || a.MarkEnd? {
      SearchStepKeepsInv(s, a);
    } else {
      ProducerStepKeepsInv(s, a);
    }
  }

  /** Steps as, taken from s, lead to t. */
  ghost predicate Runs(s: Sys, steps: seq<Action>, t: Sys)
    decreases |steps|
  {
    if steps == [] then t == s
    else WellSized(s) && Enabled(s, steps[0]) && Runs(Do(s, steps[0]), steps[1..], t)
  }

  /** Some run from a fresh buffer ends in s. (The sizes are those of the fresh buffer.) */
  ghost predicate Reachable(s: Sys) {
    WellSized(s) &&
    exists consumers: nat, blocks: nat, size: nat, byParts, steps ::
      consumers <= MAX_CONSUMERS && blocks > 0 && Runs(Init(consumers, blocks, size, byParts), steps, s)
  }

  lemma {:induction false} RunKeepsInv(s: Sys, steps: seq<Action>, t: Sys)
    requires Inv(s) && Runs(s, steps, t)
    ensures Inv(t)
    decreases |steps|
  {
    if steps != [] {
      StepKeepsInv(s, steps[0]);
      RunKeepsInv(Do(s, steps[0]), steps[1..], t);
    }
  }

  lemma ReachableInv(s: Sys)
    requires Reachable(s)
    ensures Inv(s)
  {
    var consumers: nat, blocks: nat, size: nat, byParts, steps :|
      consumers <= MAX_CONSUMERS && blocks > 0 && Runs(Init(consumers, blocks, size, byParts), steps, s);
    InitInv(consumers, blocks, size, byParts);
    RunKeepsInv(Init(consumers, blocks, size, byParts), steps, s);
  }

  // ---- no overwrite while in use ----------------------------------------------------------

  /** The block being copied into is wanted by nobody, and no reader is between get and unlock on it;
      a fast consumer still to read an earlier part of it is never asked to share the part being copied. */
  lemma NoOverwrite(s: Sys)
    requires Reachable(s) && Copying(s)
    ensures s.b.slots[s.prod.slot].busy == {}
    ensures forall c: nat :: c < MAX_CONSUMERS && s.readers[c].pc.Holding? ==> s.b.nextOut[c] != s.prod.slot
    ensures forall c: nat :: c < MAX_CONSUMERS && Enabled(s, Get16(c)) ==>
              !(s.b.nextOut[c] == s.prod.slot && s.b.nextOut16[c] == s.prod.part)
  {
    ReachableInv(s);
    forall c: nat | c < MAX_CONSUMERS && s.readers[c].pc.Holding? ensures s.b.nextOut[c] != s.prod.slot {
      assert ConsumerOk(s, c);
    }
    forall c: nat | c < MAX_CONSUMERS && Enabled(s, Get16(c))
      ensures !(s.b.nextOut[c] == s.prod.slot && s.b.nextOut16[c] == s.prod.part)
    {
      HasBasis(s, c);
      AtPart(s, c, s.b.nextOut[c], s.b.nextOut16[c]);
    }
  }

  /** c is between get and unlock on a block that reads x. */
  ghost predicate Holds(s: Sys, c: nat, x: Content) {
    && WellSized(s) && c < MAX_CONSUMERS
    && s.readers[c].pc == Holding(x) && s.b.slots[s.b.nextOut[c]].content == x
  }

  /** What the thread of a registered consumer owns is as it was. */
  ghost predicate Left(s: Sys, t: Sys, c: nat)
    requires WellSized(s) && c < MAX_CONSUMERS
  {
    && |t.readers| == MAX_CONSUMERS && t.readers[c] == s.readers[c]
    && |t.b.nextOut| == MAX_CONSUMERS && t.b.nextOut[c] == s.b.nextOut[c]
    && c in t.b.tcmask && (c in t.b.cmask <==> c in s.b.cmask)
  }

  lemma ConsumerLeavesReader(s: Sys, a: Action, c: nat)
    requires WellSized(s) && Enabled(s, a) && c < MAX_CONSUMERS && c in s.b.tcmask
    requires a.Get? || a.Unlock? || a.Advance? || a.Get16? || a.Unlock16?
    requires a.c != c
    ensures Left(s, Do(s, a), c)
  {
  }

  lemma MemberLeavesReader(s: Sys, a: Action, c: nat)
    requires WellSized(s) && InvControl(s) && Enabled(s, a) && c < MAX_CONSUMERS && c in s.b.tcmask
    requires a.Add? || a.DeleteBegin? || a.DeleteSlot? || a.DeleteEnd?
    requires a != DeleteBegin(c)
    ensures Left(s, Do(s, a), c)
  {
  }

  lemma SearchLeavesReader(s: Sys, a: Action, c: nat)
    requires WellSized(s) && InvControl(s) && Enabled(s, a) && c < MAX_CONSUMERS && c in s.b.tcmask
    requires a.MarkBegin? || a.MarkSlot? || a.MarkEnd?
    ensures Left(s, Do(s, a), c)
  {
  }

  /** Nobody else touches what the thread of a registered consumer owns. */
  lemma StepLeavesReader(s: Sys, a: Action, c: nat)
    requires WellSized(s) && InvMasks(s) && InvControl(s) && Enabled(s, a)
    requires c < MAX_CONSUMERS && c in s.b.tcmask
    requires a != Get(c) && a != Unlock(c) && a != Advance(c) && a != Get16(c) && a != Unlock16(c)
    requires a != DeleteBegin(c)
    ensures Left(s, Do(s, a), c)
  {
    if a.Get? || a.Unlock? || a.Advance? || a.Get16? || a.Unlock16? {
      ConsumerLeavesReader(s, a, c);
    } else if a.Add? || a.DeleteBegin? || a.DeleteSlot? || a.DeleteEnd? {
      MemberLeavesReader(s, a, c);
    } else if a.MarkBegin? || a.MarkSlot? || a.MarkEnd? {
      SearchLeavesReader(s, a, c);
    }
  }

  lemma StepKeepsHeld(s: Sys, a: Action, c: nat, x: Content)
    requires Inv(s) && Enabled(s, a) && Holds(s, c, x) && a != Unlock(c) && a != DeleteBegin(c)
    ensures Holds(Do(s, a), c, x) && Do(s, a).b.nextOut[c] == s.b.nextOut[c]
  {
    assert ConsumerOk(s, c);
    StepLeavesReader(s, a, c);
    StepKeepsInv(s, a);
    HoldingReads(Do(s, a), c);
  }

  lemma HoldingReads(s: Sys, c: nat)
    requires Inv(s) && c < MAX_CONSUMERS && s.readers[c].pc.Holding?
    ensures s.b.slots[s.b.nextOut[c]].content == s.readers[c].pc.got
  {
    assert ConsumerOk(s, c);
  }

  /** However the other threads run, a block got and not yet unlocked stays where it is and as it was. */
  lemma {:induction false} HeldBlockNeverWritten(s: Sys, steps: seq<Action>, t: Sys, c: nat, x: Content)
    requires Inv(s) && Runs(s, steps, t) && Holds(s, c, x)
    requires Unlock(c) !in steps && DeleteBegin(c) !in steps
    ensures Holds(t, c, x) && t.b.nextOut[c] == s.b.nextOut[c]
    decreases |steps|
  {
    if steps != [] {
      StepKeepsInv(s, steps[0]);
      StepKeepsHeld(s, steps[0], c, x);
      HeldBlockNeverWritten(Do(s, steps[0]), steps[1..], t, c, x);
    }
  }

  // ---- what is put is what is stored -----------------------------------------------------------

  /** The producer is where it was, with its block, its numbers and its history as they were. */
  ghost predicate SameProducer(s: Sys, t: Sys) {
    && t.prod == s.prod && t.byParts == s.byParts && t.log == s.log && t.parts == s.parts && t.b.puts == s.b.puts
    && Blocks(t) == Blocks(s)
    && (forall k :: 0 <= k < Blocks(s) ==> t.b.slots[k].content == s.b.slots[k].content)
  }

  lemma ConsumerLeavesProducer(s: Sys, a: Action)
    requires WellSized(s) && Enabled(s, a)
    requires a.Get? || a.Unlock? || a.Advance? || a.Get16? || a.Unlock16?
    ensures SameProducer(s, Do(s, a))
  {
  }

  lemma MemberLeavesProducer(s: Sys, a: Action)
    requires WellSized(s) && Enabled(s, a)
    requires a.Add? || a.DeleteBegin? || a.DeleteSlot? || a.DeleteEnd? || a.MarkBegin? || a.MarkSlot? || a.MarkEnd?
    ensures SameProducer(s, Do(s, a))
  {
  }

  /** Between the end of the copy and its publication the block stays what the producer wrote. */
  lemma FilledBlockStays(s: Sys, a: Action)
    requires WellSized(s) && Enabled(s, a) && s.prod.Filled? && a != PublishBusy && a != PublishPart
    ensures SameProducer(s, Do(s, a))
  {
    if a.Get? || a.Unlock? || a.Advance? || a.Get16? || a.Unlock16? {
      ConsumerLeavesProducer(s, a);
    } else {
      MemberLeavesProducer(s, a);
    }
  }

  lemma {:induction false} FilledBlockStaysOver(s: Sys, steps: seq<Action>, t: Sys)
    requires Inv(s) && Runs(s, steps, t) && s.prod.Filled? && PublishBusy !in steps && PublishPart !in steps
    ensures SameProducer(s, t)
    decreases |steps|
  {
    if steps != [] {
      StepKeepsInv(s, steps[0]);
      FilledBlockStays(s, steps[0]);
      FilledBlockStaysOver(Do(s, steps[0]), steps[1..], t);
    }
  }

  /** What put was given: the bytes, and the properties if there were any, numbered by the puts before. */
  ghost predicate Given(x: Content, data: Bytes, arg: PropArg, num: nat) {
    && x.data == data && x.bytes == |data| && x.prop.seqNum == num
    && (arg.Given? ==> x.prop == arg.prop.(seqNum := num))
  }

  /** Whatever the consumers do between the copy and the publication, the block that put adds to the log
      is the block it was given. */
  lemma PutStores(s: Sys, data: Bytes, arg: PropArg, steps: seq<Action>, t: Sys)
    requires Inv(s) && !s.byParts && Enabled(s, FinishFill(data, arg)) && Runs(Do(s, FinishFill(data, arg)), steps, t)
    requires PublishBusy !in steps && PublishPart !in steps && WellSized(t) && Enabled(t, PublishBusy)
    ensures var u := Do(t, PublishBusy);
      && u.log[..|u.log| - 1] == s.log && Given(u.log[|u.log| - 1], data, arg, s.b.puts)
  {
    var f := Do(s, FinishFill(data, arg));
    StepKeepsInv(s, FinishFill(data, arg));
    FilledBlockStaysOver(f, steps, t);
  }

  /** The producer is on its way to publish part p. */
  ghost predicate Carries(s: Sys, p: Part) {
    && WellSized(s) && s.byParts && (s.prod.Filled? || s.prod.Marked? || s.prod.Advanced?)
    && s.b.slots[s.prod.slot].content.slices[s.prod.part] == p.data
    && s.b.slots[s.prod.slot].content.props16[s.prod.part] == p.prop
  }

  lemma PublishCarries(s: Sys, a: Action, p: Part)
    requires WellSized(s) && Enabled(s, a) && Carries(s, p) && (a.PublishBusy? || a.PublishAdvance?)
    ensures WellSized(Do(s, a)) ==> Carries(Do(s, a), p)
    ensures Do(s, a).parts == s.parts
  {
  }

  lemma StepCarries(s: Sys, a: Action, p: Part)
    requires Inv(s) && Enabled(s, a) && Carries(s, p) && a != PublishPart && WellSized(Do(s, a))
    ensures Carries(Do(s, a), p) && Do(s, a).parts == s.parts
  {
    if a.PublishBusy? || a.PublishAdvance? {
      PublishCarries(s, a, p);
    } else if a.Get? || a.Unlock? || a.Advance? || a.Get16? || a.Unlock16? {
      ConsumerLeavesProducer(s, a);
    } else {
      MemberLeavesProducer(s, a);
    }
  }

  lemma {:induction false} RunCarries(s: Sys, steps: seq<Action>, t: Sys, p: Part)
    requires Inv(s) && Runs(s, steps, t) && Carries(s, p) && PublishPart !in steps
    ensures Carries(t, p) && t.parts == s.parts
    decreases |steps|
  {
    if steps != [] {
      StepKeepsInv(s, steps[0]);
      StepCarries(s, steps[0], p);
      RunCarries(Do(s, steps[0]), steps[1..], t, p);
    }
  }

  /** The same for a part, though the last part of a block is published after the block. */
  lemma PutPartStores(s: Sys, data: Bytes, arg: PropArg, steps: seq<Action>, t: Sys)
    requires Inv(s) && s.byParts && Enabled(s, FinishFill(data, arg)) && Runs(Do(s, FinishFill(data, arg)), steps, t)
    requires PublishPart !in steps && WellSized(t) && Enabled(t, PublishPart)
    ensures var u := Do(t, PublishPart);
      && u.parts[..|u.parts| - 1] == s.parts && u.parts[|u.parts| - 1].data == data
      && u.parts[|u.parts| - 1].prop.seqNum == s.b.puts
      && (arg.Given? ==> u.parts[|u.parts| - 1].prop == arg.prop.(seqNum := s.b.puts))
  {
    var f := Do(s, FinishFill(data, arg));
    StepKeepsInv(s, FinishFill(data, arg));
    var was := s.b.slots[s.prod.slot].content.props16[s.prod.part];
    RunCarries(f, steps, t, Part(data, Stamped(was, arg, s.b.puts)));
  }

  lemma {:induction false} LogGrows(s: Sys, steps: seq<Action>, t: Sys)
    requires Inv(s) && Runs(s, steps, t)
    ensures s.log <= t.log && Inv(t)
    decreases |steps|
  {
    if steps != [] {
      StepKeepsInv(s, steps[0]);
      HistoryGrows(s, steps[0]);
      LogGrows(Do(s, steps[0]), steps[1..], t);
    }
  }

  /** Producer to consumer: however long after it was put, whoever gets the block at that position of
      the log gets what put was given. */
  lemma PutIsGot(s: Sys, data: Bytes, arg: PropArg, steps: seq<Action>, t: Sys, more: seq<Action>, u: Sys, c: nat)
    requires Inv(s) && !s.byParts && Enabled(s, FinishFill(data, arg)) && Runs(Do(s, FinishFill(data, arg)), steps, t)
    requires PublishBusy !in steps && PublishPart !in steps && WellSized(t) && Enabled(t, PublishBusy)
    requires Runs(Do(t, PublishBusy), more, u)
    requires WellSized(u) && Enabled(u, Get(c)) && u.readers[c].pos == |s.log|
    ensures var pc := Do(u, Get(c)).readers[c].pc; pc.Holding? && Given(pc.got, data, arg, s.b.puts)
  {
    PutKeepsInv(s, data, arg, steps, t);
    PutStores(s, data, arg, steps, t);
    LaterGot(Do(t, PublishBusy), more, u, c, |s.log|);
  }

  lemma PutKeepsInv(s: Sys, data: Bytes, arg: PropArg, steps: seq<Action>, t: Sys)
    requires Inv(s) && Enabled(s, FinishFill(data, arg)) && Runs(Do(s, FinishFill(data, arg)), steps, t)
    requires WellSized(t) && Enabled(t, PublishBusy)
    ensures Inv(Do(t, PublishBusy))
  {
    StepKeepsInv(s, FinishFill(data, arg));
    RunKeepsInv(Do(s, FinishFill(data, arg)), steps, t);
    StepKeepsInv(t, PublishBusy);
  }

  /** What is at a position of the log is what is got there later. */
  lemma LaterGot(s: Sys, steps: seq<Action>, u: Sys, c: nat, p: nat)
    requires Inv(s) && p < |s.log| && Runs(s, steps, u)
    requires WellSized(u) && Enabled(u, Get(c)) && u.readers[c].pos == p
    ensures Do(u, Get(c)).readers[c].pc == Holding(s.log[p])
  {
    LogGrows(s, steps, u);
    GetNext(u, c);
    assert u.log[p] == s.log[p];
  }

  // ---- lossless first-in first-out --------------------------------------------------------

  /** A regular consumer has read exactly the blocks stored from its registration on, in order;
      the indices are positions modulo the ring size, it is never more than the ring behind, and its
      bit is set exactly on the blocks it has still to read. */
  lemma LosslessFifo(s: Sys, c: nat)
    requires Reachable(s) && c < MAX_CONSUMERS && c in s.b.cmask
    ensures var r, n, t := s.readers[c], Blocks(s), |s.log|;
            && n <= r.origin <= r.pos <= t <= r.pos + n
            && (c !in s.b.cmask16 ==> r.taken == s.log[r.origin..r.pos])
            && (!Publishing(s.prod) ==> s.b.nextIn == t % n)
            && (!r.pc.Cleared? ==> s.b.nextOut[c] == r.pos % n)
            && (forall p: nat :: t - n <= p < t ==> (c in s.b.slots[p % n].busy <==> r.pos <= p))
  {
    ReachableInv(s);
    assert ConsumerOk(s, c);
    var r, n, t := s.readers[c], Blocks(s), |s.log|;
    IdxIsMod(t, n);
    IdxIsMod(r.pos, n);
    forall p: nat | t - n <= p < t ensures c in s.b.slots[p % n].busy <==> r.pos <= p {
      IdxIsMod(p, n);
      OwnOfIdx(t, n, p);
      assert !Leftover(s, p % n, c);
      assert Wanted(s, p % n, c) <==> r.pos <= p;
    }
  }

  lemma GetNext(s: Sys, c: nat)
    requires Inv(s) && Enabled(s, Get(c))
    ensures var r := s.readers[c];
            r.pos < |s.log| && Do(s, Get(c)).readers[c].pc == Holding(s.log[r.pos])
  {
    HasBasis(s, c);
    AtPosition(s, c);
  }

  /** What get returns is the next block of the log, complete. */
  lemma GetReturnsNext(s: Sys, c: nat)
    requires Reachable(s) && Enabled(s, Get(c))
    ensures var r := s.readers[c];
            r.pos < |s.log| && Do(s, Get(c)).readers[c].pc == Holding(s.log[r.pos])
  {
    ReachableInv(s);
    GetNext(s, c);
  }

  // ---- drops ------------------------------------------------------------------------------

  /** How many blocks have been stored. */
  function StoredBlocks(s: Sys): int {
    |s.log| - Blocks(s)
  }

  /** Puts are the blocks stored plus the blocks dropped. */
  lemma DropAccounting(s: Sys)
    requires Reachable(s) && !s.prod.Marked?
    ensures s.b.puts == StoredBlocks(s) + s.b.drops && StoredBlocks(s) >= 0
  {
    ReachableInv(s);
  }

  /** Between two consecutive stored blocks the sequence numbers jump by one more than the drops:
      every put between them, and no other, was a drop. */
  lemma GapsAreDrops(s: Sys, p: nat)
    requires Reachable(s) && Blocks(s) <= p && p + 1 < |s.log| && !s.prod.Marked?
    ensures var a, b := s.log[p].prop.seqNum, s.log[p + 1].prop.seqNum;
            a < b < |s.hist| && s.hist[a].Stored? && s.hist[b].Stored? &&
            forall q :: a < q < b ==> s.hist[q].Dropped?
  {
    ReachableInv(s);
    assert SeqNumOk(s, p) && SeqNumOk(s, p + 1);
    NextStored(s.hist, s.log[p].prop.seqNum, s.log[p + 1].prop.seqNum);
  }

  /** Two stored events whose counts differ by one have only drops between them. */
  lemma NextStored(h: seq<Event>, a: nat, b: nat)
    requires a < |h| && b < |h| && h[a].Stored? && h[b].Stored?
    requires CountStored(h[..b]) == CountStored(h[..a]) + 1
    ensures a < b && forall q :: a < q < b ==> h[q].Dropped?
  {
    CountMonotone(h, b, a);
    assert h[..a + 1][..a] == h[..a];
    forall q | a < q < b ensures h[q].Dropped? {
      assert h[..q + 1][..q] == h[..q];
      CountMonotone(h, a + 1, q);
      CountMonotone(h, q + 1, b);
    }
  }

  lemma {:induction false} CountMonotone(h: seq<Event>, a: nat, b: nat)
    requires a <= |h| && b <= |h|
    ensures a <= b ==> CountStored(h[..a]) <= CountStored(h[..b])
    decreases b
  {
    if a < b {
      assert h[..b][..b - 1] == h[..b - 1];
      CountMonotone(h, a, b - 1);
    }
  }

  // ---- membership -------------------------------------------------------------------------

  /** Whenever the buffer lock is free: nested masks, each counted; at most 127 consumers; every busy
      mask inside the mask of registered consumers, whole block and parts alike. */
  lemma Membership(s: Sys)
    requires Reachable(s) && Unlocked(s)
    ensures Registry(s.b) && s.b.consumers <= MAX_CONSUMERS
    ensures forall k :: 0 <= k < Blocks(s) ==> s.b.slots[k].busy <= s.b.tcmask
    ensures forall k, j :: 0 <= k < Blocks(s) && 0 <= j < PARTS ==> s.b.slots[k].busy16[j] <= s.b.cmask16
    ensures forall k :: 0 <= k < Blocks(s) ==> s.b.slots[k].content.bytes <= s.b.blockSize
  {
    ReachableInv(s);
    RegistryBound(s.b);
    forall k: nat | k < Blocks(s) ensures s.b.slots[k].busy <= s.b.tcmask {
      BusyInside(s, k);
    }
    forall k: nat, j: nat | k < Blocks(s) && j < PARTS ensures s.b.slots[k].busy16[j] <= s.b.cmask16 {
      PartBusyInside(s, k, j);
    }
  }

  lemma BusyInside(s: Sys, k: nat)
    requires Inv(s) && Unlocked(s) && k < Blocks(s)
    ensures s.b.slots[k].busy <= s.b.tcmask
  {
    forall c: nat | c in s.b.slots[k].busy ensures c in s.b.tcmask {
      assert ConsumerOk(s, c);
    }
  }

  lemma PartBusyInside(s: Sys, k: nat, j: nat)
    requires Inv(s) && Unlocked(s) && k < Blocks(s) && j < PARTS
    ensures s.b.slots[k].busy16[j] <= s.b.cmask16
  {
    forall c: nat | c in s.b.slots[k].busy16[j] ensures c in s.b.cmask16 {
      assert ConsumerOk(s, c);
      assert WantedPart(s, k, j, c);
    }
  }

  // ---- fast consumers ---------------------------------------------------------------------

  /** A fast consumer has been given exactly the parts published from its registration on, in order;
      the part it may take next is the next one of that sequence; and when that is part 15, its bit
      on the whole block is already set. */
  lemma FastSequence(s: Sys, c: nat)
    requires Reachable(s) && c < MAX_CONSUMERS && c in s.b.cmask16 && s.byParts
    ensures var r, i := s.readers[c], NextPart(s, c);
            && r.start <= i <= |s.parts| && r.takenParts == s.parts[r.start..i]
            && (Enabled(s, Get16(c)) ==>
                  && i < |s.parts|
                  && Do(s, Get16(c)).readers[c].takenParts == s.parts[r.start..i + 1]
                  && (s.b.nextOut16[c] == PARTS - 1 ==> c in s.b.slots[s.b.nextOut[c]].busy))
  {
    ReachableInv(s);
    HasBasis(s, c);
    if Enabled(s, Get16(c)) {
      FastNext(s, c);
      if s.b.nextOut16[c] == PARTS - 1 {
        var k := s.b.nextOut[c];
        AtPart(s, c, k, PARTS - 1);
        OwnOfIdx(|s.log|, Blocks(s), s.readers[c].pos);
        assert Wanted(s, k, c);
      }
    }
  }

  lemma FastNext(s: Sys, c: nat)
    requires Inv(s) && Enabled(s, Get16(c))
    ensures var r, i := s.readers[c], NextPart(s, c);
            i < |s.parts| && r.start <= i && Do(s, Get16(c)).readers[c].takenParts == s.parts[r.start..i + 1]
  {
    var t := DoGet16(s, c);
    FastStepKeepsInv(s, Get16(c));
    HasBasis(s, c);
    AtPart(s, c, s.b.nextOut[c], s.b.nextOut16[c]);
    Get16Moves(s, c, t);
    FastTaken(s, c);
    FastTaken(t, c);
  }

  lemma Get16Moves(s: Sys, c: nat, t: Sys)
    requires WellSized(s) && Enabled(s, Get16(c)) && t == DoGet16(s, c) && WellSized(t)
    ensures t.b.cmask16 == s.b.cmask16 && t.parts == s.parts && t.byParts == s.byParts
    ensures NextPart(t, c) == NextPart(s, c) + 1 && t.readers[c].start == s.readers[c].start
    ensures t == Do(s, Get16(c))
  {
  }

  lemma FastTaken(s: Sys, c: nat)
    requires Inv(s) && s.byParts && c < MAX_CONSUMERS && c in s.b.cmask16
    ensures var r, i := s.readers[c], NextPart(s, c);
      r.start <= i <= |s.parts| && r.takenParts == s.parts[r.start..i]
  {
    assert ConsumerOk(s, c);
  }

  /** c is between get16th and its next call: part j of slot k is the one it has been given. */
  ghost predicate AtGivenPart(s: Sys, c: nat, k: nat, j: nat) {
    && WellSized(s) && s.byParts && c < MAX_CONSUMERS && c in s.b.cmask16 && s.readers[c].pc.Idle?
    && k == s.b.nextOut[c] && j < PARTS && s.b.nextOut16[c] == j + 1
  }

  /** What part j of slot k reads. */
  function PartAt(s: Sys, k: nat, j: nat): Part
    requires WellSized(s) && k < Blocks(s) && j < PARTS
  {
    Part(s.b.slots[k].content.slices[j], s.b.slots[k].content.props16[j])
  }

  lemma GivenPartOwner(s: Sys, c: nat, k: nat, j: nat)
    requires Basis(s, c) && AtGivenPart(s, c, k, j)
    ensures OwnPart(s, k, j) == s.readers[c].pos && !Replacing(s, k, j)
    ensures NextPart(s, c) == PARTS * s.readers[c].pos + j + 1 <= |s.parts|
  {
    var pos, n := s.readers[c].pos, Blocks(s);
    NotLapped(s, c);
    if pos < Whole(s) {
      OwnOfIdx(Whole(s), n, pos);
      if k == Idx(Whole(s), n) && Whole(s) - pos < n {
        IdxInjective(pos, Whole(s), n);
      }
    }
  }

  /** A part given to a fast consumer is not being replaced, and is what was published. */
  lemma PartStays(s: Sys, c: nat, k: nat, j: nat)
    requires Inv(s) && AtGivenPart(s, c, k, j)
    ensures !Replacing(s, k, j) && 0 < NextPart(s, c) <= |s.parts|
    ensures k < Blocks(s) && PartAt(s, k, j) == s.parts[NextPart(s, c) - 1]
  {
    HasBasis(s, c);
    GivenPartOwner(s, c, k, j);
    assert PartOk(s, k, j);
  }

  lemma OthersLeavePart(s: Sys, a: Action, c: nat, k: nat, j: nat)
    requires WellSized(s) && Enabled(s, a) && AtGivenPart(s, c, k, j) && a != Get16(c) && a != Unlock16(c)
    requires a.Get? || a.Unlock? || a.Advance? || a.Get16? || a.Unlock16?
    ensures var t := Do(s, a);
      |t.b.nextOut16| == MAX_CONSUMERS && t.b.nextOut16[c] == s.b.nextOut16[c] && t.b.cmask16 == s.b.cmask16
  {
  }

  lemma MembersLeavePart(s: Sys, a: Action, c: nat, k: nat, j: nat)
    requires WellSized(s) && InvControl(s) && c in s.b.tcmask && Enabled(s, a) && AtGivenPart(s, c, k, j)
    requires a.Add? || a.DeleteBegin? || a.DeleteSlot? || a.DeleteEnd? || a.MarkBegin? || a.MarkSlot? || a.MarkEnd?
    requires a != DeleteBegin(c)
    ensures var t := Do(s, a);
      |t.b.nextOut16| == MAX_CONSUMERS && t.b.nextOut16[c] == s.b.nextOut16[c] && c in t.b.cmask16
  {
  }

  lemma ProducerLeavesPart(s: Sys, a: Action, c: nat, k: nat, j: nat)
    requires WellSized(s) && Enabled(s, a) && AtGivenPart(s, c, k, j)
    requires a.BeginFill? || a.Scribble? || a.FinishFill? || a.PublishBusy? || a.PublishAdvance? || a.PublishPart?
             || a.SeeTaken? || a.CountDrop?
    ensures var t := Do(s, a);
      && t.readers == s.readers && t.b.nextOut == s.b.nextOut && t.b.nextOut16 == s.b.nextOut16
      && t.b.cmask16 == s.b.cmask16
  {
  }

  lemma StepLeavesPart(s: Sys, a: Action, c: nat, k: nat, j: nat)
    requires Inv(s) && Enabled(s, a) && AtGivenPart(s, c, k, j)
    requires a != Get16(c) && a != Unlock16(c) && a != DeleteBegin(c) && WellSized(Do(s, a))
    ensures AtGivenPart(Do(s, a), c, k, j) && NextPart(Do(s, a), c) == NextPart(s, c)
  {
    HistoryGrows(s, a);
    if a.Get? || a.Unlock? || a.Advance? || a.Get16? || a.Unlock16? {
      OthersLeavePart(s, a, c, k, j);
      StepLeavesReader(s, a, c);
    } else if a.Add? || a.DeleteBegin? || a.DeleteSlot? || a.DeleteEnd? || a.MarkBegin? || a.MarkSlot? || a.MarkEnd? {
      MembersLeavePart(s, a, c, k, j);
      StepLeavesReader(s, a, c);
    } else {
      ProducerLeavesPart(s, a, c, k, j);
    }
  }

  lemma {:induction false} RunLeavesPart(s: Sys, steps: seq<Action>, t: Sys, c: nat, k: nat, j: nat)
    requires Inv(s) && Runs(s, steps, t) && AtGivenPart(s, c, k, j)
    requires Get16(c) !in steps && Unlock16(c) !in steps && DeleteBegin(c) !in steps
    ensures Inv(t) && AtGivenPart(t, c, k, j) && NextPart(t, c) == NextPart(s, c) && s.parts <= t.parts
    decreases |steps|
  {
    if steps != [] {
      StepKeepsInv(s, steps[0]);
      StepLeavesPart(s, steps[0], c, k, j);
      HistoryGrows(s, steps[0]);
      RunLeavesPart(Do(s, steps[0]), steps[1..], t, c, k, j);
    }
  }

  /** However the other threads run, the part get16th has returned stays where it is and as it was until
      the consumer calls again. */
  lemma GivenPartNeverWritten(s: Sys, steps: seq<Action>, t: Sys, c: nat, k: nat, j: nat)
    requires Inv(s) && Runs(s, steps, t) && AtGivenPart(s, c, k, j)
    requires Get16(c) !in steps && Unlock16(c) !in steps && DeleteBegin(c) !in steps
    ensures AtGivenPart(t, c, k, j) && k < Blocks(s) && k < Blocks(t) && PartAt(t, k, j) == PartAt(s, k, j)
  {
    RunLeavesPart(s, steps, t, c, k, j);
    SamePart(s, t, c, k, j);
  }

  lemma SamePart(s: Sys, t: Sys, c: nat, k: nat, j: nat)
    requires Inv(s) && Inv(t) && AtGivenPart(s, c, k, j) && AtGivenPart(t, c, k, j)
    requires NextPart(t, c) == NextPart(s, c) && s.parts <= t.parts
    ensures k < Blocks(s) && k < Blocks(t) && PartAt(t, k, j) == PartAt(s, k, j)
  {
    PartStays(s, c, k, j);
    PartStays(t, c, k, j);
    PrefixAt(s.parts, t.parts, NextPart(s, c) - 1);
  }

  lemma PrefixAt<T>(a: seq<T>, b: seq<T>, i: nat)
    requires a <= b && i < |a|
    ensures b[i] == a[i]
  {
  }

  /** Block p of the log is made of parts 16p..16p+15. */
  ghost predicate BlockPart(s: Sys, p: nat, j: nat)
    requires p < |s.log| && j < PARTS
  {
    && PARTS * p + j < |s.parts| && |s.log[p].slices| == PARTS && |s.log[p].props16| == PARTS
    && s.parts[PARTS * p + j] == Part(s.log[p].slices[j], s.log[p].props16[j])
  }

  ghost predicate BlocksAreParts(s: Sys) {
    s.byParts ==> forall p: nat, j: nat :: p < Whole(s) && j < PARTS ==> BlockPart(s, p, j)
  }

  /** History only grows; a block becomes whole only with its last part. */
  lemma HistoryGrows(s: Sys, a: Action)
    requires WellSized(s) && InvIndex(s) && Enabled(s, a)
    ensures var t := Do(s, a);
            && t.byParts == s.byParts && s.log <= t.log && s.parts <= t.parts
            && (s.byParts && !(a.PublishPart? && s.prod.Advanced?) ==> Whole(t) == Whole(s))
  {
    if a.Get? || a.Unlock? || a.Advance? || a.Get16? || a.Unlock16? {
      ConsumerLeavesProducer(s, a);
    } else if a.Add? || a.DeleteBegin? || a.DeleteSlot? || a.DeleteEnd? || a.MarkBegin? || a.MarkSlot? || a.MarkEnd? {
      MemberLeavesProducer(s, a);
    } else {
      ProducerHistoryGrows(s, a);
    }
  }

  lemma ProducerHistoryGrows(s: Sys, a: Action)
    requires WellSized(s) && InvIndex(s) && Enabled(s, a)
    requires a.BeginFill? || a.Scribble? || a.FinishFill? || a.PublishBusy? || a.PublishAdvance? || a.PublishPart?
             || a.SeeTaken? || a.CountDrop?
    ensures var t := Do(s, a);
            && t.byParts == s.byParts && s.log <= t.log && s.parts <= t.parts
            && (s.byParts && !(a.PublishPart? && s.prod.Advanced?) ==> Whole(t) == Whole(s))
  {
  }

  lemma StepKeepsBlocksAreParts(s: Sys, a: Action)
    requires Inv(s) && Enabled(s, a) && BlocksAreParts(s)
    ensures BlocksAreParts(Do(s, a))
  {
    HistoryGrows(s, a);
    if s.byParts && a.PublishPart? && s.prod.Advanced? {
      LastPartCompletesBlock(s, DoPublishPart(s));
    } else {
      OldBlocksStay(s, Do(s, a));
    }
  }

  lemma OldBlocksStay(s: Sys, t: Sys)
    requires BlocksAreParts(s) && t.byParts == s.byParts && s.log <= t.log && s.parts <= t.parts
    requires s.byParts ==> Whole(t) == Whole(s)
    ensures BlocksAreParts(t)
  {
    forall p: nat, j: nat | t.byParts && p < Whole(t) && j < PARTS ensures BlockPart(t, p, j) {
      assert BlockPart(s, p, j);
    }
  }

  lemma LastPartCompletesBlock(s: Sys, t: Sys)
    requires Inv(s) && BlocksAreParts(s) && s.prod.Advanced? && s.byParts && t == DoPublishPart(s)
    ensures BlocksAreParts(t)
  {
    Production.PublishPartStore(s, t);
    var k := s.prod.slot;
    OwnOfIdx(|t.log|, Blocks(t), |t.log| - 1);
    assert t.b.slots[k].content == t.log[|t.log| - 1];
    forall p: nat, j: nat | p < Whole(t) && j < PARTS ensures BlockPart(t, p, j) {
      if p < Whole(s) {
        assert BlockPart(s, p, j);
      } else {
        assert PartOk(t, k, j);
      }
    }
  }

  lemma {:induction false} RunKeepsBlocksAreParts(s: Sys, steps: seq<Action>, t: Sys)
    requires Inv(s) && BlocksAreParts(s) && Runs(s, steps, t)
    ensures BlocksAreParts(t)
    decreases |steps|
  {
    if steps != [] {
      StepKeepsInv(s, steps[0]);
      StepKeepsBlocksAreParts(s, steps[0]);
      RunKeepsBlocksAreParts(Do(s, steps[0]), steps[1..], t);
    }
  }

  /** When blocks are put in parts, every complete block of the log is its sixteen published parts. */
  lemma LogIsParts(s: Sys, p: nat, j: nat)
    requires Reachable(s) && s.byParts && p < Whole(s) && j < PARTS
    ensures BlockPart(s, p, j)
  {
    var consumers: nat, blocks: nat, size: nat, byParts, steps :|
      consumers <= MAX_CONSUMERS && blocks > 0 && Runs(Init(consumers, blocks, size, byParts), steps, s);
    InitInv(consumers, blocks, size, byParts);
    InitBlocksAreParts(consumers, blocks, size, byParts, Init(consumers, blocks, size, byParts));
    RunKeepsBlocksAreParts(Init(consumers, blocks, size, byParts), steps, s);
  }

  lemma InitBlocksAreParts(consumers: nat, blocks: nat, size: nat, byParts: bool, s: Sys)
    requires s == Init(consumers, blocks, size, byParts)
    ensures BlocksAreParts(s)
  {
    forall p: nat, j: nat | byParts && p < Whole(s) && j < PARTS ensures BlockPart(s, p, j) {
      assert PARTS * p + j < PARTS * blocks;
    }
  }

  // ---- transient consumers ----------------------------------------------------------------

  /** From position `from` on block timestamps never go back. */
  ghost predicate TimeOrdered(log: seq<Content>, from: int) {
    forall p, q :: 0 <= p && from <= p <= q < |log| ==> log[p].prop.gps <= log[q].prop.gps
  }

  /** Position p is among the newest n-1 blocks and its time in the delta seconds from gps on. */
  predicate Matches(s: Sys, p: int, gps: int, delta: int)
    requires WellSized(s)
  {
    0 <= p && |s.log| - Blocks(s) < p < |s.log| && gps <= s.log[p].prop.gps < gps + delta
  }

  /** When the look-back search ends it has marked exactly the matching blocks. */
  lemma SearchMarksMatches(s: Sys)
    requires Inv(s) && Enabled(s, MarkEnd)
    ensures forall p :: p in s.ctl.marks <==> Matches(s, p, s.ctl.gps, s.ctl.delta)
  {
    Members.AtCursor(|s.log|, Blocks(s), s.ctl.i, s.ctl.k);
  }

  /** Finding nothing, the call fails and leaves no bit behind. */
  lemma LookBackFindsNothing(s: Sys)
    requires Reachable(s) && Enabled(s, MarkEnd)
    ensures s.ctl.first < 0 <==> forall p :: !Matches(s, p, s.ctl.gps, s.ctl.delta)
    ensures s.ctl.first < 0 ==> Do(s, MarkEnd) == s.(ctl := Free)
    ensures s.ctl.first < 0 ==> forall k :: 0 <= k < Blocks(s) ==> s.ctl.c !in s.b.slots[k].busy
  {
    ReachableInv(s);
    SearchMarksMatches(s);
    if p :| p in s.ctl.marks {
      assert Matches(s, p, s.ctl.gps, s.ctl.delta);
    }
    if s.ctl.first < 0 {
      HasBasis(s, s.ctl.c);
      forall k | 0 <= k < Blocks(s) ensures s.ctl.c !in s.b.slots[k].busy {
        assert !Wanted(s, k, s.ctl.c);
      }
    }
  }

  /** Otherwise a transient consumer is registered at the first matching block, the outputs are the
      first and last matching timestamps and, time being ordered, what it is to read has no gap. */
  lemma LookBackFindsRun(s: Sys, t: Sys)
    requires Reachable(s) && Enabled(s, MarkEnd) && s.ctl.first >= 0 && t == Do(s, MarkEnd)
    ensures |t.readers| == MAX_CONSUMERS && s.ctl.c < MAX_CONSUMERS
    ensures s.ctl.c in t.b.tcmask && s.ctl.c !in t.b.cmask
    ensures var m, r := s.ctl, t.readers[s.ctl.c];
            && r.pos == r.origin == Own(|s.log|, Blocks(s), m.first) <= m.last < |s.log|
            && (forall p :: p in r.marks <==> Matches(s, p, m.gps, m.delta))
            && r.origin in r.marks && m.last in r.marks
            && (forall p :: p in r.marks ==> r.origin <= p <= m.last)
            && m.bstart == s.log[r.origin].prop.gps && m.blast == s.log[m.last].prop.gps
            && (TimeOrdered(s.log, r.origin) ==> MarkedRun(r, m.last))
  {
    ReachableInv(s);
    SearchMarksMatches(s);
    MarkEndRegisters(s, t);
    var m, r := s.ctl, t.readers[s.ctl.c];
    if TimeOrdered(s.log, r.origin) {
      assert Matches(s, r.origin, m.gps, m.delta) && Matches(s, m.last, m.gps, m.delta);
      MatchesBetween(s, r.origin, m.last, m.gps, m.delta);
    }
  }

  lemma MarkEndRegisters(s: Sys, t: Sys)
    requires Inv(s) && Enabled(s, MarkEnd) && s.ctl.first >= 0 && t == Do(s, MarkEnd)
    ensures |t.readers| == MAX_CONSUMERS && s.ctl.c < MAX_CONSUMERS
    ensures s.ctl.c in t.b.tcmask && s.ctl.c !in t.b.cmask
    ensures var o := Own(|s.log|, Blocks(s), s.ctl.first);
      o >= 0 && t.readers[s.ctl.c] == Reader(Idle, o, o, s.ctl.marks, 0, [], [])
  {
  }

  /** With time ordered, what lies between two matching positions matches. */
  lemma MatchesBetween(s: Sys, a: int, b: int, gps: int, delta: int)
    requires WellSized(s) && Matches(s, a, gps, delta) && Matches(s, b, gps, delta) && TimeOrdered(s.log, a)
    ensures forall p :: a <= p <= b ==> Matches(s, p, gps, delta)
  {
  }

  /** Every block found has been stored, unless the period holds second 0 and the ring is not full yet:
      the blocks of a fresh ring have time 0 and are found like any other. */
  lemma LookBackFindsStored(s: Sys)
    requires Reachable(s) && Enabled(s, MarkEnd)
    ensures (forall p :: p in s.ctl.marks ==> p >= Blocks(s)) <==>
            s.ctl.gps > 0 || s.ctl.gps + s.ctl.delta <= 0 || StoredBlocks(s) >= Blocks(s) - 1
  {
    ReachableInv(s);
    SearchMarksMatches(s);
    EmptyMatches(s, s.ctl.gps, s.ctl.delta);
  }

  /** The never-stored positions that match. */
  lemma EmptyMatches(s: Sys, gps: int, delta: int)
    requires WellSized(s) && BeginsEmpty(s.log, Blocks(s))
    ensures forall p :: Matches(s, p, gps, delta) && p < Blocks(s) ==> gps <= 0 < gps + delta
    ensures gps <= 0 < gps + delta && StoredBlocks(s) < Blocks(s) - 1 ==> Matches(s, Blocks(s) - 1, gps, delta)
  {
    assert EmptyAt(s.log, Blocks(s) - 1);
    forall p | Matches(s, p, gps, delta) && p < Blocks(s) ensures gps <= 0 < gps + delta {
      assert EmptyAt(s.log, p);
    }
  }

  /** What r is to read is the run of positions from its origin to last. */
  ghost predicate MarkedRun(r: Reader, last: int) {
    r.origin <= last && forall p :: p in r.marks <==> r.origin <= p <= last
  }

  /** A transient consumer is given its marked blocks in order, nothing else and nothing changed; when
      its marks are the run origin..last, it stops for good right after last. */
  lemma TransientReads(s: Sys, c: nat, last: int)
    requires Inv(s) && c < MAX_CONSUMERS && c in s.b.tcmask && c !in s.b.cmask
    requires MarkedRun(s.readers[c], last)
    ensures var r := s.readers[c];
            && r.origin <= r.pos <= last + 1 <= |s.log| && r.taken == s.log[r.origin..r.pos]
            && (r.pc.Idle? ==> (Enabled(s, Get(c)) <==> r.pos <= last))
  {
    HasBasis(s, c);
    var r := s.readers[c];
    assert last in r.marks;
    assert r.pos <= last + 1 by {
      assert r.pos > last + 1 ==> last + 1 in r.marks;
    }
    if r.pc.Idle? {
      TransientGet(s, c);
    }
  }

  /** A transient consumer can get exactly when the block it stands at is marked for it. */
  lemma TransientGet(s: Sys, c: nat)
    requires Basis(s, c) && c in s.b.tcmask && c !in s.b.cmask && s.readers[c].pc.Idle?
    ensures Enabled(s, Get(c)) <==> s.readers[c].pos in s.readers[c].marks
  {
    var r, k := s.readers[c], s.b.nextOut[c];
    if c in s.b.slots[k].busy {
      AtPosition(s, c);
      assert Wanted(s, k, c);
    }
    if r.pos in r.marks {
      OwnOfIdx(|s.log|, Blocks(s), r.pos);
      assert Wanted(s, k, c);
    }
  }

  /** No step, and in particular no later put, changes what a transient consumer is to read. */
  lemma MarksAreFixed(s: Sys, a: Action, c: nat)
    requires Inv(s) && Enabled(s, a) && c < MAX_CONSUMERS && c in s.b.tcmask && c !in s.b.cmask && a != DeleteBegin(c)
    ensures var t := Do(s, a);
            && |t.readers| == MAX_CONSUMERS && c in t.b.tcmask && c !in t.b.cmask
            && t.readers[c].marks == s.readers[c].marks && t.readers[c].origin == s.readers[c].origin
  {
    if a == Get(c) || a == Unlock(c) || a == Advance(c) {
    } else {
      assert a != Get16(c) && a != Unlock16(c);
      StepLeavesReader(s, a, c);
    }
  }

  lemma {:induction false} RunKeepsMarks(s: Sys, steps: seq<Action>, t: Sys, c: nat)
    requires Inv(s) && Runs(s, steps, t) && DeleteBegin(c) !in steps
    requires c < MAX_CONSUMERS && c in s.b.tcmask && c !in s.b.cmask
    ensures |t.readers| == MAX_CONSUMERS && c in t.b.tcmask && c !in t.b.cmask
    ensures t.readers[c].marks == s.readers[c].marks && t.readers[c].origin == s.readers[c].origin
    ensures s.log <= t.log
    decreases |steps|
  {
    if steps != [] {
      StepKeepsInv(s, steps[0]);
      MarksAreFixed(s, steps[0], c);
      HistoryGrows(s, steps[0]);
      RunKeepsMarks(Do(s, steps[0]), steps[1..], t, c);
    }
  }

  /** The whole of a look-back: from the moment the search has found something, and however the
      producer and everybody else run on, the consumer reads the run of matching blocks first..last,
      in order and as they were then, and never anything after it. */
  lemma LookBackDelivers(s: Sys, t: Sys, steps: seq<Action>, u: Sys)
    requires Reachable(s) && Enabled(s, MarkEnd) && s.ctl.first >= 0 && t == Do(s, MarkEnd)
    requires TimeOrdered(s.log, Own(|s.log|, Blocks(s), s.ctl.first))
    requires Runs(t, steps, u) && DeleteBegin(s.ctl.c) !in steps
    ensures |u.readers| == MAX_CONSUMERS && s.ctl.c < MAX_CONSUMERS
    ensures var r := u.readers[s.ctl.c];
            && r.origin <= r.pos <= s.ctl.last + 1 <= |s.log|
            && r.taken == s.log[r.origin..r.pos]
            && (forall p :: Matches(s, p, s.ctl.gps, s.ctl.delta) <==> r.origin <= p <= s.ctl.last)
            && (r.pc.Idle? ==> WellSized(u) && (Enabled(u, Get(s.ctl.c)) <==> r.pos <= s.ctl.last))
  {
    FoundRun(s, t);
    LaterReads(t, steps, u, s.ctl.c, s.ctl.last);
  }

  lemma FoundRun(s: Sys, t: Sys)
    requires Reachable(s) && Enabled(s, MarkEnd) && s.ctl.first >= 0 && t == Do(s, MarkEnd)
    requires TimeOrdered(s.log, Own(|s.log|, Blocks(s), s.ctl.first))
    ensures Inv(t) && t.log == s.log && s.ctl.c < MAX_CONSUMERS && s.ctl.last < |s.log|
    ensures s.ctl.c in t.b.tcmask && s.ctl.c !in t.b.cmask && MarkedRun(t.readers[s.ctl.c], s.ctl.last)
    ensures var r := t.readers[s.ctl.c];
      forall p :: Matches(s, p, s.ctl.gps, s.ctl.delta) <==> r.origin <= p <= s.ctl.last
  {
    ReachableInv(s);
    LookBackFindsRun(s, t);
    StepKeepsInv(s, MarkEnd);
  }

  /** What a transient consumer has read however much later. */
  lemma LaterReads(t: Sys, steps: seq<Action>, u: Sys, c: nat, last: int)
    requires Inv(t) && Runs(t, steps, u) && DeleteBegin(c) !in steps
    requires c < MAX_CONSUMERS && c in t.b.tcmask && c !in t.b.cmask && MarkedRun(t.readers[c], last) && last < |t.log|
    ensures |u.readers| == MAX_CONSUMERS && u.readers[c].origin == t.readers[c].origin
    ensures var r := u.readers[c];
            && r.origin <= r.pos <= last + 1 && r.taken == t.log[r.origin..r.pos]
            && (r.pc.Idle? ==> WellSized(u) && (Enabled(u, Get(c)) <==> r.pos <= last))
  {
    RunKeepsInv(t, steps, u);
    RunKeepsMarks(t, steps, u, c);
    SameRun(t.readers[c], u.readers[c], last);
    DeliveredFrom(u, c, t.log, last);
  }

  lemma SameRun(r: Reader, q: Reader, last: int)
    requires MarkedRun(r, last) && q.origin == r.origin && q.marks == r.marks
    ensures MarkedRun(q, last)
  {
  }

  /** TransientReads, told in terms of an earlier log. */
  lemma DeliveredFrom(u: Sys, c: nat, log: seq<Content>, last: int)
    requires Inv(u) && c < MAX_CONSUMERS && c in u.b.tcmask && c !in u.b.cmask
    requires MarkedRun(u.readers[c], last) && last < |log| && log <= u.log
    ensures var r := u.readers[c];
            && r.origin <= r.pos <= last + 1 && r.taken == log[r.origin..r.pos]
            && (r.pc.Idle? ==> (Enabled(u, Get(c)) <==> r.pos <= last))
  {
    TransientReads(u, c, last);
    assert u.log[..|log|] == log;
  }
}
