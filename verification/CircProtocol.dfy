/** The circular buffer as a protocol: one producer, one thread per consumer number, and
    membership changes, interleaved critical section by critical section. Waiting on a condition
    variable is a step that is not enabled. Ghost history (log, parts, events, and what each
    consumer has read) is the simple specification the ring is measured against. The
    log begins with the empty blocks of a fresh ring, which a look-back can find like any other; the blocks
    stored follow them. */
module CircProtocol {
  import opened Ring
  import opened CircState

  /** Where the producer is inside a put. `slot` and `part` are the locals nbi and nbi16th. */
  datatype Producer =
    | Ready                             // between calls
    | Filling(slot: nat, part: nat)     // saw the slot free, copying into it
    | Filled(slot: nat, part: nat)      // copied; block lock released, buffer lock not yet taken
    | Marked(slot: nat, part: nat)      // buffer lock held; busy = cmask done
    | Advanced(slot: nat, part: nat)    // buffer lock held; next_block_in and puts advanced
    | Dropping                          // put_nowait saw the slot taken

  /** Who holds the buffer lock across several block locks. */
  datatype Control =
    | Free
    | Deleting(c: nat, next: nat)       // delete_consumer: slots below next are cleaned
    | Marking(c: nat, gps: int, delta: int, i: nat, k: nat, first: int, bstart: int, blast: int,
              marks: set<int>, last: int)          // add_transient_consumer: k slots looked at, i is next

  datatype Pc = Idle | Holding(got: Content) | Cleared

  /** A published part as its readers should see it. */
  datatype Part = Part(data: Bytes, prop: Prop)

  datatype Event = Stored | Dropped

  /** The thread of one consumer number, with its ghost history. */
  datatype Reader = Reader(
    pc: Pc,
    pos: nat,              // position of the block next_block_out stands for
    origin: nat,           // pos when the number was handed out
    marks: set<int>,       // transient consumers: positions marked for it
    start: nat,            // fast consumers: index of the first part it is to see
    taken: seq<Content>,   // blocks read between get and unlock
    takenParts: seq<Part>) // parts returned by get16th

  datatype Sys = Sys(
    b: Buf,
    byParts: bool,         // the producer uses put16th_dpscattered (else the whole-block puts)
    prod: Producer,
    ctl: Control,
    readers: seq<Reader>,
    log: seq<Content>,     // the empty blocks of a fresh ring, then every block stored
    parts: seq<Part>,      // their parts, then every part published
    hist: seq<Event>)      // every finished put

  datatype Action =
    | BeginFill
    | Scribble(junk: Bytes)
    | FinishFill(data: Bytes, arg: PropArg)
    | PublishBusy
    | PublishAdvance
    | PublishPart
    | SeeTaken
    | CountDrop
    | Get(c: nat)
    | Unlock(c: nat)
    | Advance(c: nat)
    | Get16(c: nat)
    | Unlock16(c: nat)
    | Add(fast: bool)
    | DeleteBegin(c: nat)
    | DeleteSlot
    | DeleteEnd
    | MarkBegin(gps: int, delta: int)
    | MarkSlot
    | MarkEnd

  const NO_PART := Part([], NO_PROP)

  function Init(consumers: nat, blocks: nat, blockSize: nat, byParts: bool): Sys {
    var parts := if byParts then PARTS * blocks else 0;
    Sys(InitBuf(consumers, blocks, blockSize), byParts, Ready, Free,
        seq(MAX_CONSUMERS, _ => Reader(Idle, blocks, blocks, {}, parts, [], [])),
        seq(blocks, _ => EmptyContent()), seq(parts, _ => NO_PART), [])
  }

  /** Basic sizes, needed for the steps to be defined at all. */
  predicate WellSized(s: Sys) {
    && Shaped(s.b)
    && |s.readers| == MAX_CONSUMERS
    && (forall c :: c in s.b.tcmask ==> c < MAX_CONSUMERS) && s.b.consumers == |s.b.tcmask|
    && (s.prod.Filling? || s.prod.Filled? || s.prod.Marked? || s.prod.Advanced? ==>
          s.prod.slot < |s.b.slots| && s.prod.part < PARTS)
    && (s.ctl.Deleting? ==> s.ctl.c < MAX_CONSUMERS && s.ctl.next <= |s.b.slots|)
    && (s.ctl.Marking? ==> s.ctl.c < MAX_CONSUMERS && s.ctl.i < |s.b.slots| && s.ctl.first < |s.b.slots|)
  }

  /** The producer holds the buffer lock. */
  predicate Publishing(p: Producer) {
    p.Marked? || p.Advanced?
  }

  /** The buffer lock can be taken. */
  predicate Unlocked(s: Sys) {
    s.ctl.Free? && !Publishing(s.prod)
  }

  predicate Enabled(s: Sys, a: Action)
    requires WellSized(s)
  {
    match a
    case BeginFill => s.prod.Ready? && s.b.slots[s.b.nextIn].busy == {}
    case Scribble(_) => s.prod.Filling?
    case FinishFill(data, _) =>
      s.prod.Filling? &&
      (if s.byParts && s.prod.part > 0 then s.b.slots[s.prod.slot].content.bytes + |data| else |data|) <= s.b.blockSize
    case PublishBusy => s.prod.Filled? && s.ctl.Free? && (s.byParts ==> s.prod.part == PARTS - 1)
    case PublishAdvance => s.prod.Marked?
    case PublishPart =>
      s.byParts && (s.prod.Advanced? || (s.prod.Filled? && s.ctl.Free? && s.prod.part < PARTS - 1))
    case SeeTaken => !s.byParts && s.prod.Ready? && s.b.slots[s.b.nextIn].busy != {}
    case CountDrop => s.prod.Dropping? && s.ctl.Free?
    case Get(c) =>
      c < MAX_CONSUMERS && c in s.b.tcmask && c !in s.b.cmask16 && s.readers[c].pc.Idle? &&
      c in s.b.slots[s.b.nextOut[c]].busy
    case Unlock(c) => c < MAX_CONSUMERS && c in s.b.tcmask && s.readers[c].pc.Holding?
    case Advance(c) => c < MAX_CONSUMERS && c in s.b.tcmask && s.readers[c].pc.Cleared?
    case Get16(c) =>
      c < MAX_CONSUMERS && c in s.b.cmask16 && s.readers[c].pc.Idle? && s.b.nextOut16[c] < PARTS &&
      c in s.b.slots[s.b.nextOut[c]].busy16[s.b.nextOut16[c]]
    case Unlock16(c) =>
      c < MAX_CONSUMERS && c in s.b.cmask16 && s.readers[c].pc.Idle? && s.b.nextOut16[c] == PARTS
    case Add(_) => Unlocked(s) && s.b.consumers < MAX_CONSUMERS
    case DeleteBegin(c) => Unlocked(s) && c < MAX_CONSUMERS && c in s.b.tcmask && !s.readers[c].pc.Cleared?
    case DeleteSlot => s.ctl.Deleting? && s.ctl.next < |s.b.slots|
    case DeleteEnd => s.ctl.Deleting? && s.ctl.next == |s.b.slots|
    case MarkBegin(gps, delta) =>
      Unlocked(s) && s.b.consumers < MAX_CONSUMERS && s.b.puts != 0 && delta != 0
    case MarkSlot => s.ctl.Marking? && s.ctl.i != s.b.nextIn
    case MarkEnd => s.ctl.Marking? && s.ctl.i == s.b.nextIn
  }

  // ---- producer steps ---------------------------------------------------------------------

  /** While the copy runs, the bytes being copied may hold anything. */
  function Torn(c: Content, byParts: bool, j: nat, junk: Bytes): Content
    requires j < |c.slices|
  {
    if byParts then c.(slices := c.slices[j := junk]) else c.(data := junk)
  }

  function DoBeginFill(s: Sys): Sys
    requires WellSized(s)
  {
    s.(prod := Filling(s.b.nextIn, s.b.nextIn16))
  }

  function DoScribble(s: Sys, junk: Bytes): Sys
    requires WellSized(s) && s.prod.Filling?
  {
    s.(b := SetContent(s.b, s.prod.slot, Torn(s.b.slots[s.prod.slot].content, s.byParts, s.prod.part, junk)))
  }

  function DoFinishFill(s: Sys, data: Bytes, arg: PropArg): Sys
    requires WellSized(s) && s.prod.Filling?
  {
    var c := s.b.slots[s.prod.slot].content;
    var c' := if s.byParts then FillPart(c, s.prod.part, data, arg, s.b.puts) else FillWhole(c, data, arg, s.b.puts);
    s.(b := SetContent(s.b, s.prod.slot, c'), prod := Filled(s.prod.slot, s.prod.part))
  }

  function DoPublishBusy(s: Sys): Sys
    requires WellSized(s) && s.prod.Filled?
  {
    s.(b := MarkBusy(s.b, s.prod.slot), prod := Marked(s.prod.slot, s.prod.part),
       log := s.log + [s.b.slots[s.prod.slot].content])
  }

  function DoPublishAdvance(s: Sys): Sys
    requires WellSized(s) && s.prod.Marked?
  {
    s.(b := AdvanceIn(s.b), prod := if s.byParts then Advanced(s.prod.slot, s.prod.part) else Ready,
       hist := s.hist + [Stored])
  }

  function DoPublishPart(s: Sys): Sys
    requires WellSized(s) && (s.prod.Advanced? || s.prod.Filled?)
  {
    var c := s.b.slots[s.prod.slot].content;
    s.(b := MarkPart(s.b, s.prod.slot, s.prod.part), prod := Ready,
       parts := s.parts + [Part(c.slices[s.prod.part], c.props16[s.prod.part])])
  }

  function DoCountDrop(s: Sys): Sys {
    s.(b := CountDropped(s.b), prod := Ready, hist := s.hist + [Dropped])
  }

  // ---- consumer steps ---------------------------------------------------------------------

  function SetReader(s: Sys, c: nat, r: Reader): Sys
    requires c < |s.readers|
  {
    s.(readers := s.readers[c := r])
  }

  function DoGet(s: Sys, c: nat): Sys
    requires WellSized(s) && c < MAX_CONSUMERS
  {
    SetReader(s, c, s.readers[c].(pc := Holding(s.b.slots[s.b.nextOut[c]].content)))
  }

  /** The reader has finished with the block as it is in the ring now, then clears its bit. */
  function DoUnlock(s: Sys, c: nat): Sys
    requires WellSized(s) && c < MAX_CONSUMERS
  {
    var r := s.readers[c];
    SetReader(s, c, r.(pc := Cleared, pos := r.pos + 1, taken := r.taken + [s.b.slots[s.b.nextOut[c]].content]))
    .(b := ClearBit(s.b, s.b.nextOut[c], c))
  }

  function DoAdvance(s: Sys, c: nat): Sys
    requires WellSized(s) && c < MAX_CONSUMERS
  {
    var b1 := AdvanceOut(s.b, c);
    SetReader(s, c, s.readers[c].(pc := Idle)).(b := if c in s.b.cmask16 then SetOut16(b1, c, 0) else b1)
  }

  function DoGet16(s: Sys, c: nat): Sys
    requires WellSized(s) && c < MAX_CONSUMERS && s.b.nextOut16[c] < PARTS
  {
    var r := s.readers[c];
    var j := s.b.nextOut16[c];
    var content := s.b.slots[s.b.nextOut[c]].content;
    SetReader(s, c, r.(takenParts := r.takenParts + [Part(content.slices[j], content.props16[j])]))
    .(b := SetOut16(s.b, c, j + 1))
  }

  function DoUnlock16(s: Sys, c: nat): Sys
    requires WellSized(s) && c < MAX_CONSUMERS
  {
    var r := s.readers[c];
    SetReader(s, c, r.(pc := Cleared, pos := r.pos + 1)).(b := ClearBits(s.b, s.b.nextOut[c], c))
  }

  // ---- membership steps -------------------------------------------------------------------

  function DoAdd(s: Sys, fast: bool): Sys
    requires WellSized(s) && s.b.consumers < MAX_CONSUMERS
  {
    var c := LowestFree(s.b.tcmask);
    SetReader(s, c, Reader(Idle, |s.log|, |s.log|, {}, |s.parts|, [], [])).(b := Register(s.b, c, fast))
  }

  function DoDeleteBegin(s: Sys, c: nat): Sys
    requires WellSized(s) && c < MAX_CONSUMERS
  {
    SetReader(s, c, s.readers[c].(pc := Idle)).(b := Unregister(s.b, c), ctl := Deleting(c, 0))
  }

  function DoDeleteSlot(s: Sys): Sys
    requires WellSized(s) && s.ctl.Deleting? && s.ctl.next < |s.b.slots|
  {
    s.(b := ClearBits(s.b, s.ctl.next, s.ctl.c), ctl := Deleting(s.ctl.c, s.ctl.next + 1))
  }

  function DoMarkBegin(s: Sys, gps: int, delta: int): Sys
    requires WellSized(s) && s.b.consumers < MAX_CONSUMERS
  {
    s.(ctl := Marking(LowestFree(s.b.tcmask), gps, delta, Succ(s.b.nextIn, |s.b.slots|), 0, -1, 0, 0, {}, 0))
  }

  /** One more slot, i, looked at; o is the position it holds and p its properties. */
  function Looked(m: Control, o: int, n: nat, p: Prop): Control
    requires m.Marking? && m.i < n
  {
    var next := m.(i := Succ(m.i, n), k := m.k + 1);
    if InPeriod(p, m.gps, m.delta) then
      next.(first := if m.first < 0 then m.i else m.first,
            bstart := if m.first < 0 then p.gps else m.bstart,
            blast := p.gps,
            marks := m.marks + {o},
            last := o)
    else next
  }

  function DoMarkSlot(s: Sys): Sys
    requires WellSized(s) && s.ctl.Marking?
  {
    var m := s.ctl;
    var n := |s.b.slots|;
    var p := s.b.slots[m.i].content.prop;
    var m' := Looked(m, Own(|s.log|, n, m.i), n, p);
    if InPeriod(p, m.gps, m.delta) then s.(b := SetBit(s.b, m.i, m.c), ctl := m') else s.(ctl := m')
  }

  function DoMarkEnd(s: Sys): Sys
    requires WellSized(s) && s.ctl.Marking?
  {
    var m := s.ctl;
    if m.first < 0 then s.(ctl := Free)
    else
      var o := Own(|s.log|, |s.b.slots|, m.first);
      var at := if o < 0 then 0 else o;
      SetReader(s, m.c, Reader(Idle, at, at, m.marks, 0, [], []))
      .(b := RegisterTransient(s.b, m.c, m.first), ctl := Free)
  }

  function Do(s: Sys, a: Action): Sys
    requires WellSized(s) && Enabled(s, a)
  {
    match a
    case BeginFill => DoBeginFill(s)
    case Scribble(junk) => DoScribble(s, junk)
    case FinishFill(data, arg) => DoFinishFill(s, data, arg)
    case PublishBusy => DoPublishBusy(s)
    case PublishAdvance => DoPublishAdvance(s)
    case PublishPart => DoPublishPart(s)
    case SeeTaken => s.(prod := Dropping)
    case CountDrop => DoCountDrop(s)
    case Get(c) => DoGet(s, c)
    case Unlock(c) => DoUnlock(s, c)
    case Advance(c) => DoAdvance(s, c)
    case Get16(c) => DoGet16(s, c)
    case Unlock16(c) => DoUnlock16(s, c)
    case Add(fast) => DoAdd(s, fast)
    case DeleteBegin(c) => DoDeleteBegin(s, c)
    case DeleteSlot => DoDeleteSlot(s)
    case DeleteEnd => s.(ctl := Free)
    case MarkBegin(gps, delta) => DoMarkBegin(s, gps, delta)
    case MarkSlot => DoMarkSlot(s)
    case MarkEnd => DoMarkEnd(s)
  }
}
