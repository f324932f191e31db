/** Every method of the buffer object that puts, gets, unlocks, adds or deletes, run without interference, is a
    run of the protocol (or, when it finds nothing to do, leaves it where it is); so what is
    proved of every run of the protocol holds of the object. */
module CircSerial {
  import opened Ring
  import opened CircState
  import opened CircProtocol
  import opened CircInvariant
  import opened CircSteps
  import opened CircTheorems
  import CircBuffer

  /** One step of the protocol. */
  ghost predicate Step(s: Sys, t: Sys) {
    WellSized(s) && exists a :: Enabled(s, a) && t == Do(s, a)
  }

  /** The states a run passes through, first to last. */
  ghost predicate Trace(via: seq<Sys>, s: Sys, t: Sys) {
    && |via| > 0 && via[0] == s && via[|via| - 1] == t
    && (forall i :: 0 <= i < |via| - 1 ==> Step(via[i], via[i + 1]))
  }

  lemma Taken(s: Sys, a: Action)
    requires Inv(s) && Enabled(s, a)
    ensures Step(s, Do(s, a)) && Inv(Do(s, a))
  {
    StepKeepsInv(s, a);
  }

  // One step at a time, as an equation between states.

  lemma TakeBeginFill(s: Sys) returns (t: Sys)
    requires Inv(s) && s.prod.Ready? && s.b.slots[s.b.nextIn].busy == {}
    ensures Step(s, t) && Inv(t) && t == DoBeginFill(s)
  {
    t := Do(s, BeginFill);
    Taken(s, BeginFill);
  }

  lemma TakeFinishFill(s: Sys, data: Bytes, arg: PropArg) returns (t: Sys)
    requires Inv(s) && Enabled(s, FinishFill(data, arg))
    ensures Step(s, t) && Inv(t) && s.prod.Filling? && t == DoFinishFill(s, data, arg)
  {
    t := Do(s, FinishFill(data, arg));
    Taken(s, FinishFill(data, arg));
  }

  lemma TakePublishBusy(s: Sys) returns (t: Sys)
    requires Inv(s) && s.prod.Filled? && s.ctl.Free? && (s.byParts ==> s.prod.part == PARTS - 1)
    ensures Step(s, t) && Inv(t) && t == DoPublishBusy(s)
  {
    t := Do(s, PublishBusy);
    Taken(s, PublishBusy);
  }

  lemma TakePublishAdvance(s: Sys) returns (t: Sys)
    requires Inv(s) && s.prod.Marked?
    ensures Step(s, t) && Inv(t) && t == DoPublishAdvance(s)
  {
    t := Do(s, PublishAdvance);
    Taken(s, PublishAdvance);
  }

  lemma TakePublishPart(s: Sys) returns (t: Sys)
    requires Inv(s) && s.byParts && (s.prod.Advanced? || (s.prod.Filled? && s.ctl.Free? && s.prod.part < PARTS - 1))
    ensures Step(s, t) && Inv(t) && t == DoPublishPart(s)
  {
    t := Do(s, PublishPart);
    Taken(s, PublishPart);
  }

  lemma TakeAdvance(s: Sys, c: nat) returns (t: Sys)
    requires Inv(s) && c < MAX_CONSUMERS && c in s.b.tcmask && s.readers[c].pc.Cleared?
    ensures Step(s, t) && Inv(t) && t == DoAdvance(s, c)
  {
    t := Do(s, Advance(c));
    Taken(s, Advance(c));
  }

  lemma TakeUnlock(s: Sys, c: nat) returns (t: Sys)
    requires Inv(s) && c < MAX_CONSUMERS && c in s.b.tcmask && s.readers[c].pc.Holding?
    ensures Step(s, t) && Inv(t) && t == DoUnlock(s, c)
  {
    t := Do(s, Unlock(c));
    Taken(s, Unlock(c));
  }

  lemma TakeUnlock16(s: Sys, c: nat) returns (t: Sys)
    requires Inv(s) && c < MAX_CONSUMERS && Enabled(s, Unlock16(c))
    ensures Step(s, t) && Inv(t) && t == DoUnlock16(s, c)
  {
    t := Do(s, Unlock16(c));
    Taken(s, Unlock16(c));
  }

  lemma TakeDeleteBegin(s: Sys, c: nat) returns (t: Sys)
    requires Inv(s) && Enabled(s, DeleteBegin(c))
    ensures Step(s, t) && Inv(t) && c < MAX_CONSUMERS && t == DoDeleteBegin(s, c)
  {
    t := Do(s, DeleteBegin(c));
    Taken(s, DeleteBegin(c));
  }

  lemma TakeDeleteSlot(s: Sys) returns (t: Sys)
    requires Inv(s) && s.ctl.Deleting? && s.ctl.next < Blocks(s)
    ensures Step(s, t) && Inv(t) && t == DoDeleteSlot(s)
  {
    t := Do(s, DeleteSlot);
    Taken(s, DeleteSlot);
  }

  lemma TakeDeleteEnd(s: Sys) returns (t: Sys)
    requires Inv(s) && s.ctl.Deleting? && s.ctl.next == Blocks(s)
    ensures Step(s, t) && t == s.(ctl := Free)
  {
    t := Do(s, DeleteEnd);
    Taken(s, DeleteEnd);
  }

  lemma TakeMarkBegin(s: Sys, gps: int, delta: int) returns (t: Sys)
    requires Inv(s) && Enabled(s, MarkBegin(gps, delta))
    ensures Step(s, t) && Inv(t) && s.b.consumers < MAX_CONSUMERS && t == DoMarkBegin(s, gps, delta)
  {
    t := Do(s, MarkBegin(gps, delta));
    Taken(s, MarkBegin(gps, delta));
  }

  lemma TakeMarkSlot(s: Sys) returns (t: Sys)
    requires Inv(s) && s.ctl.Marking? && s.ctl.i != s.b.nextIn
    ensures Step(s, t) && Inv(t) && t == DoMarkSlot(s)
  {
    t := Do(s, MarkSlot);
    Taken(s, MarkSlot);
  }

  lemma TakeMarkEnd(s: Sys) returns (t: Sys)
    requires Inv(s) && s.ctl.Marking? && s.ctl.i == s.b.nextIn
    ensures Step(s, t) && Inv(t) && t == DoMarkEnd(s)
  {
    t := Do(s, MarkEnd);
    Taken(s, MarkEnd);
  }

  lemma TraceOn(via: seq<Sys>, s: Sys, t: Sys, u: Sys)
    requires Trace(via, s, t) && Step(t, u)
    ensures Trace(via + [u], s, u)
  {
  }

  lemma TraceFrom(s: Sys, t: Sys, via: seq<Sys>, u: Sys)
    requires Step(s, t) && Trace(via, t, u)
    ensures Trace([s] + via, s, u)
  {
    var all := [s] + via;
    forall i | 0 <= i < |all| - 1 ensures Step(all[i], all[i + 1]) {
      if i > 0 {
        var j := i - 1;
        assert Step(via[j], via[j + 1]);
      }
    }
  }

  lemma ThreeSteps(a: Sys, b: Sys, c: Sys, d: Sys)
    requires Step(a, b) && Step(b, c) && Step(c, d)
    ensures Trace([a, b, c, d], a, d)
  {
  }

  /** A trace is a run. */
  lemma {:induction false} TraceIsRun(via: seq<Sys>, s: Sys, t: Sys) returns (steps: seq<Action>)
    requires Trace(via, s, t)
    ensures Runs(s, steps, t)
    decreases |via|
  {
    if |via| == 1 {
      steps := [];
    } else {
      assert Step(via[0], via[0 + 1]);
      var a :| Enabled(s, a) && via[1] == Do(s, a);
      forall i | 0 <= i < |via[1..]| - 1 ensures Step(via[1..][i], via[1..][i + 1]) {
        assert Step(via[i + 1], via[i + 1 + 1]);
      }
      var rest := TraceIsRun(via[1..], via[1], t);
      steps := RunFrom(s, a, via[1], rest, t);
    }
  }

  lemma RunFrom(s: Sys, a: Action, u: Sys, rest: seq<Action>, t: Sys) returns (steps: seq<Action>)
    requires WellSized(s) && Enabled(s, a) && u == Do(s, a) && Runs(u, rest, t)
    ensures Runs(s, steps, t)
  {
    steps := [a] + rest;
    assert steps[1..] == rest;
  }

  // ---- producer -----------------------------------------------------------------------------------

  /** The block that is next, or its next part, filled but not published. */
  lemma FillIsRun(s: Sys, data: Bytes, arg: PropArg) returns (s1: Sys, t: Sys)
    requires Inv(s) && s.prod.Ready? && s.ctl.Free? && s.b.slots[s.b.nextIn].busy == {}
    requires (if s.byParts && s.b.nextIn16 > 0 then s.b.slots[s.b.nextIn].content.bytes + |data| else |data|)
             <= s.b.blockSize
    ensures Step(s, s1) && Step(s1, t) && Inv(t)
    ensures t.prod == Filled(s.b.nextIn, s.b.nextIn16) && t.ctl.Free? && t.byParts == s.byParts
    ensures var c := s.b.slots[s.b.nextIn].content;
      t.b == SetContent(s.b, s.b.nextIn, if s.byParts then FillPart(c, s.b.nextIn16, data, arg, s.b.puts)
                                         else FillWhole(c, data, arg, s.b.puts))
  {
    s1 := TakeBeginFill(s);
    t := TakeFinishFill(s1, data, arg);
  }

  /** A filled block published. */
  lemma PublishIsRun(s: Sys) returns (s1: Sys, t: Sys)
    requires Inv(s) && s.prod.Filled? && s.ctl.Free? && (s.byParts ==> s.prod.part == PARTS - 1)
    ensures Step(s, s1) && Step(s1, t) && Inv(t) && t.ctl.Free? && t.byParts == s.byParts
    ensures t.prod == if s.byParts then Advanced(s.prod.slot, s.prod.part) else Ready
    ensures t.b == AdvanceIn(MarkBusy(s.b, s.prod.slot))
  {
    s1 := TakePublishBusy(s);
    t := TakePublishAdvance(s1);
  }

  /** put, and put_nowait that finds the block free */
  lemma PutIsRun(s: Sys, data: Bytes, arg: PropArg) returns (via: seq<Sys>, t: Sys)
    requires Inv(s) && s.prod.Ready? && s.ctl.Free? && !s.byParts
    requires s.b.slots[s.b.nextIn].busy == {} && |data| <= s.b.blockSize
    ensures Trace(via, s, t) && t.b == CircBuffer.Stored(s.b, data, arg) && t.prod.Ready? && t.ctl.Free?
  {
    var s1, s2 := FillIsRun(s, data, arg);
    var s3, u := PublishIsRun(s2);
    ThreeSteps(s1, s2, s3, u);
    TraceFrom(s, s1, [s1, s2, s3, u], u);
    via, t := [s] + [s1, s2, s3, u], u;
  }

  /** put_nowait that drops */
  lemma DropIsRun(s: Sys) returns (via: seq<Sys>, t: Sys)
    requires Inv(s) && s.prod.Ready? && s.ctl.Free? && !s.byParts && s.b.slots[s.b.nextIn].busy != {}
    ensures Trace(via, s, t) && t.b == CountDropped(s.b) && t.prod.Ready? && t.ctl.Free?
  {
    var s1 := Do(s, SeeTaken);
    Taken(s, SeeTaken);
    t := Do(s1, CountDrop);
    Taken(s1, CountDrop);
    via := [s, s1, t];
  }

  /** put16th_dpscattered */
  lemma PutPartIsRun(s: Sys, data: Bytes, arg: PropArg) returns (via: seq<Sys>, t: Sys)
    requires Inv(s) && s.prod.Ready? && s.ctl.Free? && s.byParts && s.b.slots[s.b.nextIn].busy == {}
    requires (if s.b.nextIn16 > 0 then s.b.slots[s.b.nextIn].content.bytes + |data| else |data|) <= s.b.blockSize
    ensures Trace(via, s, t) && t.b == CircBuffer.StoredPart(s.b, data, arg) && t.prod.Ready? && t.ctl.Free?
  {
    var s1, s2 := FillIsRun(s, data, arg);
    if s.b.nextIn16 < PARTS - 1 {
      t := TakePublishPart(s2);
      ThreeSteps(s, s1, s2, t);
      via := [s, s1, s2, t];
    } else {
      var s3, s4 := PublishIsRun(s2);
      t := TakePublishPart(s4);
      ThreeSteps(s2, s3, s4, t);
      TraceFrom(s1, s2, [s2, s3, s4, t], t);
      TraceFrom(s, s1, [s1] + [s2, s3, s4, t], t);
      via := [s] + ([s1] + [s2, s3, s4, t]);
    }
  }

  // ---- consumers ----------------------------------------------------------------------------------

  /** get, once its wait is over: the next block of the log for the caller to read */
  lemma GetIsRun(s: Sys, c: nat, nbo: nat) returns (t: Sys)
    requires Inv(s) && c < MAX_CONSUMERS && c in s.b.tcmask && c !in s.b.cmask16 && s.readers[c].pc.Idle?
    requires c in s.b.slots[s.b.nextOut[c]].busy && nbo == s.b.nextOut[c]
    ensures Step(s, t) && Inv(t) && t.b == s.b
    ensures var r := s.readers[c];
      && r.pos < |s.log| && nbo == r.pos % Blocks(s) && s.b.slots[nbo].content == s.log[r.pos]
      && t.readers == s.readers[c := r.(pc := Holding(s.log[r.pos]))]
  {
    t := DoGet(s, c);
    Taken(s, Get(c));
    GetNext(s, c);
    assert ConsumerOk(s, c);
    IdxIsMod(s.readers[c].pos, Blocks(s));
  }

  /** get_nowait: it returns a block exactly when get would not wait. For a regular consumer that is when
      a block of the log is left to read, for a transient one when the position it stands at is marked
      for it; and the block returned holds that position of the log. */
  lemma NowaitFinds(s: Sys, c: nat, ret: int)
    requires Reachable(s) && c < MAX_CONSUMERS && c in s.b.tcmask && c !in s.b.cmask16 && s.readers[c].pc.Idle?
    requires ret == CircBuffer.Nowait(s.b, c)
    ensures ret >= 0 <==> Enabled(s, Get(c))
    ensures var r := s.readers[c];
      && (c in s.b.cmask ==> (ret >= 0 <==> r.pos < |s.log|))
      && (c !in s.b.cmask ==> (ret >= 0 <==> r.pos in r.marks))
      && (ret >= 0 ==> r.pos < |s.log| && ret == r.pos % Blocks(s) && s.b.slots[ret].content == s.log[r.pos])
  {
    ReachableInv(s);
    NowaitIsGet(s, c);
    if c in s.b.cmask {
      RegularFinds(s, c);
    } else {
      HasBasis(s, c);
      TransientGet(s, c);
    }
    if ret >= 0 {
      var t := GetIsRun(s, c, ret);
    }
  }

  lemma NowaitIsGet(s: Sys, c: nat)
    requires WellSized(s) && c < MAX_CONSUMERS && c in s.b.tcmask && c !in s.b.cmask16 && s.readers[c].pc.Idle?
    ensures CircBuffer.Nowait(s.b, c) >= 0 <==> Enabled(s, Get(c))
  {
  }

  lemma RegularFinds(s: Sys, c: nat)
    requires Inv(s) && c < MAX_CONSUMERS && c in s.b.cmask && !s.readers[c].pc.Cleared?
    ensures c in s.b.slots[s.b.nextOut[c]].busy <==> s.readers[c].pos < |s.log|
  {
    HasBasis(s, c);
    var pos, k := s.readers[c].pos, s.b.nextOut[c];
    if c in s.b.slots[k].busy {
      AtPosition(s, c);
    }
    if pos < |s.log| {
      OwnOfIdx(|s.log|, Blocks(s), pos);
      assert Wanted(s, k, c);
    }
  }

  /** noop, once its wait is over: one block of the log skipped */
  lemma NoopIsRun(s: Sys, c: nat) returns (via: seq<Sys>, t: Sys)
    requires Inv(s) && c < MAX_CONSUMERS && c in s.b.tcmask && c !in s.b.cmask16 && s.readers[c].pc.Idle?
    requires c in s.b.slots[s.b.nextOut[c]].busy
    ensures Trace(via, s, t) && Inv(t) && t.readers[c].pc.Idle?
    ensures t.b == AdvanceOut(ClearBit(s.b, s.b.nextOut[c], c), c)
    ensures t.readers[c].pos == s.readers[c].pos + 1
  {
    var s1 := GetIsRun(s, c, s.b.nextOut[c]);
    assert ConsumerOk(s1, c);
    var s2 := TakeUnlock(s1, c);
    t := TakeAdvance(s2, c);
    ThreeSteps(s, s1, s2, t);
    via := [s, s1, s2, t];
  }

  /** get16th, once its wait is over: the next part of its sequence, and the number the method packs */
  lemma Get16IsRun(s: Sys, c: nat) returns (t: Sys)
    requires Inv(s) && c < MAX_CONSUMERS && c in s.b.cmask16 && s.readers[c].pc.Idle? && s.b.nextOut16[c] < PARTS
    requires c in s.b.slots[s.b.nextOut[c]].busy16[s.b.nextOut16[c]]
    ensures Step(s, t) && Inv(t) && t.b == SetOut16(s.b, c, s.b.nextOut16[c] + 1)
    ensures var i := NextPart(s, c);
      i < |s.parts| && s.readers[c].start <= i && t.readers[c].takenParts == s.parts[s.readers[c].start..i + 1]
  {
    t := TakeGet16(s, c);
  }

  lemma TakeGet16(s: Sys, c: nat) returns (t: Sys)
    requires Inv(s) && c < MAX_CONSUMERS && Enabled(s, Get16(c))
    ensures Step(s, t) && Inv(t) && t.b == SetOut16(s.b, c, s.b.nextOut16[c] + 1)
    ensures var i := NextPart(s, c);
      i < |s.parts| && s.readers[c].start <= i && t.readers[c].takenParts == s.parts[s.readers[c].start..i + 1]
  {
    t := DoGet16(s, c);
    Taken(s, Get16(c));
    FastNext(s, c);
  }

  /** unlock after get */
  lemma UnlockIsRun(s: Sys, c: nat) returns (via: seq<Sys>, t: Sys)
    requires Inv(s) && c < MAX_CONSUMERS && c in s.b.tcmask && s.readers[c].pc.Holding?
    ensures Trace(via, s, t) && Inv(t) && t.readers[c].pc.Idle?
    ensures t.b == AdvanceOut(ClearBit(s.b, s.b.nextOut[c], c), c)
  {
    assert ConsumerOk(s, c);
    var s1 := TakeUnlock(s, c);
    t := TakeAdvance(s1, c);
    via := [s, s1, t];
  }

  /** unlock16th after part 15 */
  lemma Unlock16thIsRun(s: Sys, c: nat) returns (via: seq<Sys>, t: Sys)
    requires Inv(s) && c < MAX_CONSUMERS && c in s.b.cmask16 && s.readers[c].pc.Idle? && s.b.nextOut16[c] == PARTS
    ensures Trace(via, s, t) && Inv(t) && t.readers[c].pc.Idle?
    ensures t.b == SetOut16(AdvanceOut(ClearBits(s.b, s.b.nextOut[c], c), c), c, 0)
  {
    assert c in s.b.tcmask;
    var s1 := TakeUnlock16(s, c);
    t := TakeAdvance(s1, c);
    via := [s, s1, t];
  }

  // ---- membership ---------------------------------------------------------------------------------

  /** add_consumer that finds a number: it starts at the next block to be stored */
  lemma AddIsRun(s: Sys, fast: bool) returns (t: Sys)
    requires Inv(s) && Unlocked(s) && s.b.consumers < MAX_CONSUMERS
    ensures Step(s, t) && Inv(t) && t.b == Register(s.b, LowestFree(s.b.tcmask), fast)
    ensures var c := LowestFree(s.b.tcmask);
      c < MAX_CONSUMERS && t.readers[c].pos == t.readers[c].origin == |s.log| && t.log == s.log &&
      c in t.b.cmask && (c in t.b.cmask16 <==> fast)
  {
    t := DoAdd(s, fast);
    Taken(s, Add(fast));
  }

  lemma {:induction false} CleaningIsRun(s: Sys, k: nat) returns (via: seq<Sys>, t: Sys)
    requires Inv(s) && s.ctl.Deleting? && s.ctl.next == 0 && k <= Blocks(s)
    ensures Trace(via, s, t) && Inv(t) && t.prod == s.prod
    ensures t.ctl == Deleting(s.ctl.c, k) && t.b == CircBuffer.CleanedTo(s.b, s.ctl.c, k)
    decreases k
  {
    if k == 0 {
      via, t := [s], s;
    } else {
      var done, u := CleaningIsRun(s, k - 1);
      t := TakeDeleteSlot(u);
      TraceOn(done, s, u, t);
      via := done + [t];
    }
  }

  /** delete_consumer */
  lemma DeleteIsRun(s: Sys, c: nat) returns (via: seq<Sys>, t: Sys)
    requires Inv(s) && Unlocked(s) && c < MAX_CONSUMERS && c in s.b.tcmask && !s.readers[c].pc.Cleared?
    ensures Trace(via, s, t) && Unlocked(t)
    ensures t.b == CircBuffer.CleanedTo(Unregister(s.b, c), c, Blocks(s))
  {
    var s1 := TakeDeleteBegin(s, c);
    var done, u := CleaningIsRun(s1, Blocks(s));
    TraceFrom(s, s1, done, u);
    t := TakeDeleteEnd(u);
    TraceOn([s] + done, s, u, t);
    via := [s] + done + [t];
  }

  /** A look-back search of the object and of the protocol have come equally far. */
  ghost predicate SameSearch(m: Control, b: Buf, q: CircBuffer.Search) {
    && m.Marking? && q.b == b && q.i == m.i && q.first == m.first
    && (m.first >= 0 ==> q.bstart == m.bstart && q.blast == m.blast)
  }

  lemma SearchStepsTogether(u: Sys, q: CircBuffer.Search, t: Sys)
    requires WellSized(u) && u.ctl.Marking? && SameSearch(u.ctl, u.b, q) && t == DoMarkSlot(u)
    ensures t.ctl.Marking? && t.ctl.k == u.ctl.k + 1 && t.prod == u.prod
    ensures t.ctl.c == u.ctl.c && t.ctl.gps == u.ctl.gps && t.ctl.delta == u.ctl.delta
    ensures SameSearch(t.ctl, t.b, CircBuffer.SearchStep(q, u.ctl.c, u.ctl.gps, u.ctl.delta))
  {
  }

  /** The search of `add_transient_consumer` after k blocks. */
  ghost predicate Searching(s: Sys, t: Sys, gps: int, delta: int, k: nat, bstart: int, blast: int)
    requires WellSized(s) && s.b.consumers < MAX_CONSUMERS
  {
    && t.prod == s.prod && t.ctl.Marking? && t.ctl.k == k && t.ctl.c == LowestFree(s.b.tcmask)
    && t.ctl.gps == gps && t.ctl.delta == delta
    && SameSearch(t.ctl, t.b, CircBuffer.Searched(s.b, t.ctl.c, gps, delta, k, bstart, blast))
  }

  lemma SearchingOn(s: Sys, u: Sys, gps: int, delta: int, k: nat, bstart: int, blast: int) returns (t: Sys)
    requires WellSized(s) && s.b.consumers < MAX_CONSUMERS && Inv(u)
    requires Searching(s, u, gps, delta, k, bstart, blast) && k + 1 < Blocks(s)
    ensures Step(u, t) && Inv(t) && Searching(s, t, gps, delta, k + 1, bstart, blast)
  {
    CircBuffer.SearchedKeeps(s.b, u.ctl.c, gps, delta, k, bstart, blast);
    t := TakeMarkSlot(u);
    SearchStepsTogether(u, CircBuffer.Searched(s.b, u.ctl.c, gps, delta, k, bstart, blast), t);
  }

  lemma SearchStarts(s: Sys, gps: int, delta: int, bstart: int, blast: int) returns (t: Sys)
    requires Inv(s) && Enabled(s, MarkBegin(gps, delta))
    ensures Step(s, t) && Inv(t) && s.b.consumers < MAX_CONSUMERS && Searching(s, t, gps, delta, 0, bstart, blast)
  {
    t := TakeMarkBegin(s, gps, delta);
  }

  lemma {:induction false} TraceKeepsInv(via: seq<Sys>, s: Sys, t: Sys)
    requires Trace(via, s, t) && Inv(s)
    ensures Inv(t)
  {
    var steps := TraceIsRun(via, s, t);
    RunKeepsInv(s, steps, t);
  }

  lemma SearchOneMore(s: Sys, s1: Sys, done: seq<Sys>, u: Sys, gps: int, delta: int, k: nat, bstart: int, blast: int)
    returns (via: seq<Sys>, t: Sys)
    requires WellSized(s) && s.b.consumers < MAX_CONSUMERS && Inv(s1) && Trace(done, s1, u)
    requires Searching(s, u, gps, delta, k, bstart, blast) && k + 1 < Blocks(s)
    ensures Trace(via, s1, t) && Searching(s, t, gps, delta, k + 1, bstart, blast)
  {
    TraceKeepsInv(done, s1, u);
    t := SearchingOn(s, u, gps, delta, k, bstart, blast);
    TraceOn(done, s1, u, t);
    via := done + [t];
  }

  /** From where the search has started on. */
  lemma {:induction false} SearchIsRun(s: Sys, s1: Sys, gps: int, delta: int, k: nat, bstart: int, blast: int)
    returns (via: seq<Sys>, t: Sys)
    requires WellSized(s) && s.b.consumers < MAX_CONSUMERS && k < Blocks(s)
    requires Inv(s1) && Searching(s, s1, gps, delta, 0, bstart, blast)
    ensures Trace(via, s1, t) && Searching(s, t, gps, delta, k, bstart, blast)
    decreases k
  {
    if k == 0 {
      via, t := [s1], s1;
    } else {
      var done, u := SearchIsRun(s, s1, gps, delta, k - 1, bstart, blast);
      via, t := SearchOneMore(s, s1, done, u, gps, delta, k - 1, bstart, blast);
    }
  }

  /** add_transient_consumer for a period */
  lemma AddTransientIsRun(s: Sys, gps: int, delta: int, bstart: int, blast: int) returns (via: seq<Sys>, t: Sys)
    requires Inv(s) && Unlocked(s) && s.b.consumers < MAX_CONSUMERS && s.b.puts != 0 && delta != 0
    ensures Trace(via, s, t) && Unlocked(t)
    ensures var c := LowestFree(s.b.tcmask);
      var q := CircBuffer.Searched(s.b, c, gps, delta, Blocks(s) - 1, bstart, blast);
      if q.first < 0 then t.b == s.b else c < |q.b.nextOut| && t.b == RegisterTransient(q.b, c, q.first)
  {
    var n := Blocks(s);
    var s1 := SearchStarts(s, gps, delta, bstart, blast);
    var done, u := SearchIsRun(s, s1, gps, delta, n - 1, bstart, blast);
    TraceKeepsInv(done, s1, u);
    TraceFrom(s, s1, done, u);
    t := SearchEnds(s, u, gps, delta, bstart, blast);
    TraceOn([s] + done, s, u, t);
    via := [s] + done + [t];
  }

  lemma SearchEnds(s: Sys, u: Sys, gps: int, delta: int, bstart: int, blast: int) returns (t: Sys)
    requires WellSized(s) && Unlocked(s) && s.b.consumers < MAX_CONSUMERS
    requires Inv(u) && Searching(s, u, gps, delta, Blocks(s) - 1, bstart, blast)
    ensures Step(u, t) && Unlocked(t)
    ensures var c := LowestFree(s.b.tcmask);
      var q := CircBuffer.Searched(s.b, c, gps, delta, Blocks(s) - 1, bstart, blast);
      if q.first < 0 then t.b == s.b else c < |q.b.nextOut| && t.b == RegisterTransient(q.b, c, q.first)
  {
    CircBuffer.SearchedKeeps(s.b, u.ctl.c, gps, delta, Blocks(s) - 1, bstart, blast);
    t := TakeMarkEnd(u);
  }

  /** One block stored in a ring of four, asked for the seconds from 0 to 99: the search finds a block
      that has never been stored. */
  lemma LookBackFindsEmpty(b: Buf, data: Bytes, p: Prop, c: nat)
    requires b == CircBuffer.Stored(InitBuf(1, 4, 8), data, Given(p)) && p.gps >= 100 && c < MAX_CONSUMERS
    ensures var q := CircBuffer.Searched(b, c, 0, 100, 3, 0, 0);
      q.first == 2 && q.b.slots[2].busy == {c} && q.b.slots[2].content == EmptyContent() && q.bstart == q.blast == 0
  {
    var k: nat := 1;
    assert b.nextIn == 1;
    var q0 := CircBuffer.Searched(b, c, 0, 100, k - 1, 0, 0);
    assert q0 == CircBuffer.Search(b, 2, -1, 0, 0);
    var q1 := CircBuffer.Searched(b, c, 0, 100, k, 0, 0);
    assert q1 == CircBuffer.SearchStep(q0, c, 0, 100) && q1.first == 2 && q1.i == 3;
    assert q1.b.slots[2] == EmptySlot().(busy := {c});
    var q2 := CircBuffer.Searched(b, c, 0, 100, k + 1, 0, 0);
    assert q2 == CircBuffer.SearchStep(q1, c, 0, 100) && q2.i == 0;
    var q3 := CircBuffer.Searched(b, c, 0, 100, k + 2, 0, 0);
    assert q3 == CircBuffer.SearchStep(q2, c, 0, 100);
  }

  // ---- the code's own invariant ---------------------------------------------------------------------

  /** `invariant(1)` holds whenever the buffer lock is free, and `invariant()` always. */
  lemma InvariantAlwaysHolds(s: Sys)
    requires Reachable(s)
    ensures CircBuffer.Consistent(s.b, false)
    ensures Unlocked(s) ==> CircBuffer.Consistent(s.b, true)
  {
    ReachableInv(s);
    RegistryBound(s.b);
    if Unlocked(s) {
      Membership(s);
      TransientsCounted(s.b, MAX_CONSUMERS);
      ConsistentWhenFree(s.b);
    }
  }

  /** What is left of the consumers after those of cmask are the transient ones. */
  lemma TransientsCounted(b: Buf, n: nat)
    requires Registry(b) && n == MAX_CONSUMERS && forall c :: c in b.tcmask ==> c < n
    ensures b.consumers - |CircBuffer.Below(b.cmask, n)| == b.transients
  {
    assert CircBuffer.Below(b.cmask, n) == b.cmask;
    assert b.tcmask == b.cmask + (b.tcmask - b.cmask);
    assert |b.tcmask| == |b.cmask| + |b.tcmask - b.cmask|;
  }

  lemma ConsistentWhenFree(b: Buf)
    requires Shaped(b) && 0 <= b.consumers <= MAX_CONSUMERS
    requires b.consumers - |CircBuffer.Below(b.cmask, MAX_CONSUMERS)| == b.transients
    requires forall k :: 0 <= k < |b.slots| ==> b.slots[k].busy <= b.tcmask && b.slots[k].content.bytes <= b.blockSize
    ensures CircBuffer.Consistent(b, true)
  {
  }
}
