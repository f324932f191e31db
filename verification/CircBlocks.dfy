/** Blocks put in parts: what the sixteen calls of put16th_dpscattered make of a block as a whole. */
module CircBlocks {
  import opened Ring
  import opened CircState
  import opened CircProtocol
  import opened CircInvariant
  import opened CircTheorems

  /** How many bytes the first m parts have. */
  function SumTo(slices: seq<Bytes>, m: nat): nat
    requires m <= |slices|
  {
    if m == 0 then 0 else SumTo(slices, m - 1) + |slices[m - 1]|
  }

  lemma {:induction false} SumOfPrefix(a: seq<Bytes>, b: seq<Bytes>, m: nat)
    requires m <= |a| && m <= |b| && forall j :: 0 <= j < m ==> a[j] == b[j]
    ensures SumTo(a, m) == SumTo(b, m)
  {
    if m > 0 {
      SumOfPrefix(a, b, m - 1);
    }
  }

  /** The parts of the block that is next whose copy has ended. */
  function Done(s: Sys): nat {
    if s.prod.Filled? then s.b.nextIn16 + 1 else s.b.nextIn16
  }

  lemma OthersLeaveIndex(s: Sys, a: Action)
    requires WellSized(s) && Enabled(s, a)
    requires a.Get? || a.Unlock? || a.Advance? || a.Get16? || a.Unlock16? || a.Add? || a.DeleteBegin? || a.DeleteSlot?
             || a.DeleteEnd? || a.MarkBegin? || a.MarkSlot? || a.MarkEnd?
    ensures SameProducer(s, Do(s, a)) && Done(Do(s, a)) == Done(s) && Do(s, a).b.nextIn == s.b.nextIn
    ensures Do(s, a).b.nextIn16 == s.b.nextIn16
  {
    if a.Get? || a.Unlock? || a.Advance? || a.Get16? || a.Unlock16? {
      ConsumerLeavesProducer(s, a);
    } else {
      MemberLeavesProducer(s, a);
    }
  }

  // ---- from the calls to the block -------------------------------------------------------------

  /** The content has these first parts, their bytes counted, and these properties. */
  ghost predicate Made(c: Content, datas: seq<Bytes>, prop: Prop) {
    && c.prop == prop && |c.slices| == PARTS == |c.props16| && |datas| <= PARTS
    && c.slices[..|datas|] == datas && c.bytes == SumTo(datas, |datas|)
  }

  lemma FirstPartMakes(c: Content, data: Bytes, arg: PropArg, puts: nat)
    requires |c.slices| == PARTS == |c.props16|
    ensures Made(FillPart(c, 0, data, arg, puts), [data], Stamped(c.prop, arg, puts))
  {
    assert SumTo([data], 1) == SumTo([data], 0) + |data|;
  }

  lemma NextPartMakes(c: Content, datas: seq<Bytes>, prop: Prop, data: Bytes, arg: PropArg, puts: nat)
    requires Made(c, datas, prop) && 0 < |datas| < PARTS
    ensures Made(FillPart(c, |datas|, data, arg, puts), datas + [data], prop)
  {
    var more := datas + [data];
    SumOfPrefix(datas, more, |datas|);
    assert c.slices[|datas| := data][..|more|] == more;
  }

  lemma TornStaysMade(c: Content, datas: seq<Bytes>, prop: Prop, junk: Bytes)
    requires Made(c, datas, prop) && |datas| < PARTS
    ensures Made(Torn(c, true, |datas|, junk), datas, prop)
  {
    assert c.slices[|datas| := junk][..|datas|] == c.slices[..|datas|];
  }

  /** The producer is in the middle of a block of which it has filled these parts. */
  ghost predicate Building(s: Sys, log: seq<Content>, puts: nat, datas: seq<Bytes>, prop: Prop) {
    && Inv(s) && s.byParts && s.log == log && s.b.puts == puts && !Publishing(s.prod)
    && 0 < |datas| == Done(s)
    && Made(s.b.slots[s.b.nextIn].content, datas, prop)
  }

  /** What a step adds to the parts filled. */
  function Adds(a: Action): seq<Bytes> {
    if a.FinishFill? then [a.data] else []
  }

  /** The parts filled in a run, in order. */
  function Copied(steps: seq<Action>): seq<Bytes> {
    if steps == [] then [] else Adds(steps[0]) + Copied(steps[1..])
  }

  lemma ProducerBuilds(s: Sys, a: Action, log: seq<Content>, puts: nat, datas: seq<Bytes>, prop: Prop)
    requires Building(s, log, puts, datas, prop) && Enabled(s, a) && a != PublishBusy
    requires a.BeginFill? || a.Scribble? || a.FinishFill? || a.PublishAdvance? || a.PublishPart? || a.SeeTaken?
             || a.CountDrop?
    ensures Inv(Do(s, a)) ==> Building(Do(s, a), log, puts, datas + Adds(a), prop)
  {
    var c := s.b.slots[s.b.nextIn].content;
    if a.FinishFill? {
      NextPartMakes(c, datas, prop, a.data, a.arg, puts);
    } else {
      assert datas + Adds(a) == datas;
      if a.Scribble? {
        TornStaysMade(c, datas, prop, a.junk);
      }
    }
  }

  lemma StepBuilds(s: Sys, a: Action, log: seq<Content>, puts: nat, datas: seq<Bytes>, prop: Prop)
    requires Building(s, log, puts, datas, prop) && Enabled(s, a) && a != PublishBusy
    ensures Building(Do(s, a), log, puts, datas + Adds(a), prop)
  {
    StepKeepsInv(s, a);
    if a.BeginFill? || a.Scribble? || a.FinishFill? || a.PublishAdvance? || a.PublishPart? || a.SeeTaken?
       || a.CountDrop? {
      ProducerBuilds(s, a, log, puts, datas, prop);
    } else {
      OthersLeaveIndex(s, a);
      assert datas + Adds(a) == datas;
    }
  }

  lemma CopiedMore(datas: seq<Bytes>, steps: seq<Action>)
    requires steps != []
    ensures datas + Copied(steps) == datas + Adds(steps[0]) + Copied(steps[1..])
  {
    Regroup(datas, Adds(steps[0]), Copied(steps[1..]));
  }

  lemma Regroup<T>(a: seq<T>, b: seq<T>, c: seq<T>)
    ensures a + (b + c) == a + b + c
  {
  }

  lemma {:induction false} RunBuilds(s: Sys, steps: seq<Action>, t: Sys, log: seq<Content>, puts: nat,
                                     datas: seq<Bytes>, prop: Prop)
    requires Building(s, log, puts, datas, prop) && Runs(s, steps, t) && PublishBusy !in steps
    ensures Building(t, log, puts, datas + Copied(steps), prop)
    decreases |steps|
  {
    if steps == [] {
      assert datas + [] == datas;
    } else {
      StepBuilds(s, steps[0], log, puts, datas, prop);
      RunBuilds(Do(s, steps[0]), steps[1..], t, log, puts, datas + Adds(steps[0]), prop);
      CopiedMore(datas, steps);
    }
  }

  lemma FirstPartBuilds(s: Sys, data: Bytes, arg: PropArg)
    requires Inv(s) && s.byParts && Enabled(s, FinishFill(data, arg)) && s.prod.part == 0
    ensures Building(Do(s, FinishFill(data, arg)), s.log, s.b.puts, [data],
                     Stamped(s.b.slots[s.prod.slot].content.prop, arg, s.b.puts))
  {
    StepKeepsInv(s, FinishFill(data, arg));
    FirstPartMakes(s.b.slots[s.prod.slot].content, data, arg, s.b.puts);
  }

  /** From the first part of a block to its publication, whatever the consumers do meanwhile: sixteen parts are
      filled, and the block added to the log has them in order, as many bytes as they have together, and the
      properties given with the first of them, numbered by the puts before. */
  lemma PutBlockStores(s: Sys, data: Bytes, arg: PropArg, steps: seq<Action>, t: Sys)
    requires Inv(s) && s.byParts && Enabled(s, FinishFill(data, arg)) && s.prod.part == 0
    requires Runs(Do(s, FinishFill(data, arg)), steps, t)
    requires PublishBusy !in steps && WellSized(t) && Enabled(t, PublishBusy)
    ensures var u, datas := Do(t, PublishBusy), [data] + Copied(steps);
      && |datas| == PARTS && |u.log| == |s.log| + 1 && u.log[..|s.log|] == s.log
      && var x := u.log[|s.log|];
        && x.slices == datas && x.bytes == SumTo(datas, PARTS) && x.prop.seqNum == s.b.puts
        && (arg.Given? ==> x.prop == arg.prop.(seqNum := s.b.puts))
  {
    var prop := Stamped(s.b.slots[s.prod.slot].content.prop, arg, s.b.puts);
    FirstPartBuilds(s, data, arg);
    RunBuilds(Do(s, FinishFill(data, arg)), steps, t, s.log, s.b.puts, [data], prop);
    MadeWhole(t.b.slots[t.b.nextIn].content, [data] + Copied(steps), prop);
  }

  lemma MadeWhole(c: Content, datas: seq<Bytes>, prop: Prop)
    requires Made(c, datas, prop) && |datas| == PARTS
    ensures c.slices == datas
  {
    assert c.slices[..PARTS] == c.slices;
  }

  // ---- every block of the log -----------------------------------------------------------------

  /** A block reads the properties of its first part and counts the bytes of all sixteen. */
  ghost predicate OfParts(c: Content) {
    |c.slices| == PARTS == |c.props16| && c.prop == c.props16[0] && c.bytes == SumTo(c.slices, PARTS)
  }

  /** So far, a block of which m parts have been filled. */
  ghost predicate OfPartsTo(c: Content, m: nat) {
    && |c.slices| == PARTS == |c.props16| && m <= PARTS && c.prop == c.props16[0]
    && (m > 0 ==> c.bytes == SumTo(c.slices, m))
  }

  lemma FillsOneMore(c: Content, m: nat, data: Bytes, arg: PropArg, puts: nat)
    requires OfPartsTo(c, m) && m < PARTS
    ensures OfPartsTo(FillPart(c, m, data, arg, puts), m + 1)
  {
    var f := FillPart(c, m, data, arg, puts);
    SumOfPrefix(c.slices, f.slices, m);
  }

  lemma TornStays(c: Content, m: nat, junk: Bytes)
    requires OfPartsTo(c, m) && m < PARTS
    ensures OfPartsTo(Torn(c, true, m, junk), m)
  {
    SumOfPrefix(c.slices, Torn(c, true, m, junk).slices, m);
  }

  ghost predicate LogOfParts(log: seq<Content>) {
    forall p {:trigger OfParts(log[p])} :: 0 <= p < |log| ==> OfParts(log[p])
  }

  ghost predicate Summed(s: Sys) {
    && WellSized(s)
    && (s.byParts ==> LogOfParts(s.log))
    && (s.byParts && Partial(s) ==> OfPartsTo(s.b.slots[s.b.nextIn].content, Done(s)))
  }

  /** Whether or not a block is half filled, the one that is next reads the properties of its first part. */
  lemma NextReads(s: Sys)
    requires Inv(s) && Summed(s) && s.byParts && !Publishing(s.prod) && !s.prod.Filled?
    ensures OfPartsTo(s.b.slots[s.b.nextIn].content, s.b.nextIn16)
  {
    if !Partial(s) {
      var o := Own(|s.log|, Blocks(s), s.b.nextIn);
      assert OfParts(s.log[o]);
    }
  }

  lemma FillingSums(s: Sys, a: Action)
    requires Inv(s) && Summed(s) && s.byParts && Enabled(s, a) && WellSized(Do(s, a))
    requires a.BeginFill? || a.Scribble? || a.FinishFill?
    ensures Summed(Do(s, a))
  {
    var c := s.b.slots[s.b.nextIn].content;
    NextReads(s);
    if a.Scribble? {
      TornStays(c, s.b.nextIn16, a.junk);
    } else if a.FinishFill? {
      FillsOneMore(c, s.b.nextIn16, a.data, a.arg, s.b.puts);
    }
  }

  lemma PublishingSums(s: Sys, a: Action)
    requires Inv(s) && Summed(s) && s.byParts && Enabled(s, a) && WellSized(Do(s, a))
    requires a.PublishBusy? || a.PublishAdvance? || a.PublishPart?
    ensures Summed(Do(s, a))
  {
    if a.PublishBusy? {
      var x := s.b.slots[s.b.nextIn].content;
      assert OfParts(x);
      LogGrowsOfParts(s.log, x);
    }
  }

  lemma LogGrowsOfParts(log: seq<Content>, x: Content)
    requires LogOfParts(log) && OfParts(x)
    ensures LogOfParts(log + [x])
  {
    forall p | 0 <= p < |log| + 1 ensures OfParts((log + [x])[p]) {
      assert p < |log| ==> (log + [x])[p] == log[p];
    }
  }

  lemma OthersLeaveSum(s: Sys, t: Sys)
    requires WellSized(s) && WellSized(t) && Summed(s) && SameProducer(s, t)
    requires Done(t) == Done(s) && t.b.nextIn == s.b.nextIn && t.b.nextIn16 == s.b.nextIn16
    ensures Summed(t)
  {
  }

  lemma StepSums(s: Sys, a: Action)
    requires Inv(s) && Summed(s) && Enabled(s, a)
    ensures Summed(Do(s, a))
  {
    StepKeepsInv(s, a);
    if !s.byParts {
      HistoryGrows(s, a);
    } else if a.BeginFill? || a.Scribble? || a.FinishFill? {
      FillingSums(s, a);
    } else if a.PublishBusy? || a.PublishAdvance? || a.PublishPart? {
      PublishingSums(s, a);
    } else if !a.SeeTaken? && !a.CountDrop? {
      OthersLeaveIndex(s, a);
      OthersLeaveSum(s, Do(s, a));
    }
  }

  lemma {:induction false} RunSums(s: Sys, steps: seq<Action>, t: Sys)
    requires Inv(s) && Summed(s) && Runs(s, steps, t)
    ensures Summed(t)
    decreases |steps|
  {
    if steps != [] {
      StepKeepsInv(s, steps[0]);
      StepSums(s, steps[0]);
      RunSums(Do(s, steps[0]), steps[1..], t);
    }
  }

  lemma {:induction false} EmptySum(slices: seq<Bytes>, m: nat)
    requires m <= |slices| && forall j :: 0 <= j < |slices| ==> slices[j] == []
    ensures SumTo(slices, m) == 0
  {
    if m > 0 {
      EmptySum(slices, m - 1);
    }
  }

  lemma InitSums(consumers: nat, blocks: nat, size: nat, byParts: bool, s: Sys)
    requires consumers <= MAX_CONSUMERS && blocks > 0 && s == Init(consumers, blocks, size, byParts)
    ensures Inv(s) && Summed(s)
  {
    InitInv(consumers, blocks, size, byParts);
    EmptySum(EmptyContent().slices, PARTS);
  }

  /** In every reachable state every block of the log that was put in parts reads the properties of its first
      part and counts the bytes of its sixteen parts. */
  lemma BlockReadsParts(s: Sys, p: nat)
    requires Reachable(s) && s.byParts && p < Whole(s)
    ensures p < |s.log| && PARTS * p + PARTS <= |s.parts| && s.log[p].prop == s.parts[PARTS * p].prop
    ensures |s.log[p].slices| == PARTS && s.log[p].bytes == SumTo(s.log[p].slices, PARTS)
  {
    var consumers: nat, blocks: nat, size: nat, byParts, steps :|
      consumers <= MAX_CONSUMERS && blocks > 0 && Runs(Init(consumers, blocks, size, byParts), steps, s);
    InitSums(consumers, blocks, size, byParts, Init(consumers, blocks, size, byParts));
    RunSums(Init(consumers, blocks, size, byParts), steps, s);
    LogIsParts(s, p, 0);
    LogIsParts(s, p, PARTS - 1);
    assert OfParts(s.log[p]) && BlockPart(s, p, 0) && BlockPart(s, p, PARTS - 1);
  }
}
