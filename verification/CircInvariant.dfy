/** The inductive invariant of the protocol. */
module CircInvariant {
  import opened Ring
  import opened CircState
  import opened CircProtocol

  function Blocks(s: Sys): nat { |s.b.slots| }

  /** Blocks whose 16 parts have all been published. */
  function Whole(s: Sys): int {
    if Publishing(s.prod) then |s.log| - 1 else |s.log|
  }

  predicate Copying(s: Sys) {
    s.prod.Filling? || s.prod.Filled?
  }

  /** Some, but not all, of the block at next_block_in has been written. */
  predicate Partial(s: Sys) {
    Copying(s) || (s.b.nextIn16 > 0 && !Publishing(s.prod))
  }

  ghost predicate InvIndex(s: Sys)
    requires WellSized(s)
  {
    && Whole(s) >= Blocks(s)
    && s.b.nextIn == Idx(if s.prod.Marked? then |s.log| - 1 else |s.log|, Blocks(s))
    && (s.byParts ==> |s.parts| == PARTS * Whole(s) + s.b.nextIn16)
    && (!s.byParts ==> s.parts == [] && s.b.nextIn16 == 0 && !s.prod.Advanced?)
    && (Copying(s) ==> s.prod.slot == s.b.nextIn && s.prod.part == s.b.nextIn16)
    && (Publishing(s.prod) ==>
          && s.ctl.Free?
          && s.prod.slot == Idx(|s.log| - 1, Blocks(s)) && s.prod.part == s.b.nextIn16
          && (s.byParts ==> s.prod.part == PARTS - 1))
    && (s.prod.Dropping? ==> !s.byParts)
  }

  /** The block being written is wanted by nobody. */
  ghost predicate InvFree(s: Sys)
    requires WellSized(s)
  {
    Partial(s) ==> s.b.slots[s.b.nextIn].busy == {}
  }

  /** The three masks are nested and every counter counts its mask. */
  ghost predicate InvMasks(s: Sys) {
    Registry(s.b)
  }

  /** Slot k is one of those that `delete_consumer` has not cleaned of c yet. */
  predicate Leftover(s: Sys, k: nat, c: nat) {
    s.ctl.Deleting? && s.ctl.c == c && k >= s.ctl.next
  }

  /** Consumer c still needs the block in slot k. */
  predicate Wanted(s: Sys, k: nat, c: nat)
    requires WellSized(s) && k < |s.b.slots| && c < MAX_CONSUMERS
  {
    var o := Own(|s.log|, Blocks(s), k);
    if s.ctl.Marking? && s.ctl.c == c then o in s.ctl.marks
    else c in s.b.tcmask && s.readers[c].pos <= o && (c in s.b.cmask || o in s.readers[c].marks)
  }

  /** Bit c of every block is set exactly while c still needs that block. */
  ghost predicate BusyOk(s: Sys, c: nat)
    requires WellSized(s) && c < MAX_CONSUMERS
  {
    forall k :: 0 <= k < Blocks(s) && !Leftover(s, k, c) ==> (c in s.b.slots[k].busy <==> Wanted(s, k, c))
  }

  /** No bit outside the consumer numbers is ever set. */
  ghost predicate InvNumbers(s: Sys)
    requires WellSized(s)
  {
    && (forall k, c: nat :: 0 <= k < Blocks(s) && c in s.b.slots[k].busy ==> c < MAX_CONSUMERS)
    && (forall k, j, c: nat {:trigger c in s.b.slots[k].busy16[j]} ::
          0 <= k < Blocks(s) && 0 <= j < PARTS && c in s.b.slots[k].busy16[j] ==> s.byParts && c < MAX_CONSUMERS)
  }

  ghost predicate InvContent(s: Sys)
    requires WellSized(s)
  {
    && (forall k :: 0 <= k < Blocks(s) && !(k == s.b.nextIn && Partial(s)) ==>
          var o := Own(|s.log|, Blocks(s), k);
          o >= 0 && s.b.slots[k].content == s.log[o])
    && (forall k :: 0 <= k < Blocks(s) ==> s.b.slots[k].content.bytes <= s.b.blockSize)
  }

  ghost predicate ReaderOk(s: Sys, c: nat)
    requires WellSized(s) && c < MAX_CONSUMERS
  {
    var r := s.readers[c];
    if c !in s.b.tcmask then r.pc.Idle?
    else
      && r.origin <= r.pos <= |s.log|
      && (c in s.b.cmask ==> Blocks(s) <= r.origin)
      && (r.pc.Cleared? ==> r.origin < r.pos)
      && s.b.nextOut[c] == Idx(if r.pc.Cleared? then r.pos - 1 else r.pos, Blocks(s))
      && (c in s.b.cmask ==> |s.log| - r.pos <= Blocks(s))
      && (c !in s.b.cmask ==> forall m :: m in r.marks ==> r.origin <= m < r.origin + Blocks(s) && m < |s.log|)
      && (c !in s.b.cmask ==> forall p :: r.origin <= p < r.pos ==> p in r.marks)
      && (c !in s.b.cmask ==> forall m :: m in r.marks && r.pos <= m ==> |s.log| - Blocks(s) <= m)
      && (c !in s.b.cmask16 ==> r.taken == s.log[r.origin..r.pos])
      && (r.pc.Holding? ==>
            && c !in s.b.cmask16
            && c in s.b.slots[s.b.nextOut[c]].busy
            && r.pc.got == s.b.slots[s.b.nextOut[c]].content)
  }

  /** Index of the next part `get16th` will return to c. */
  function NextPart(s: Sys, c: nat): nat
    requires WellSized(s) && c < MAX_CONSUMERS
  {
    PARTS * s.readers[c].pos + (if s.readers[c].pc.Cleared? then 0 else s.b.nextOut16[c])
  }

  ghost predicate FastOk(s: Sys, c: nat)
    requires WellSized(s) && c < MAX_CONSUMERS
  {
    c in s.b.cmask16 ==>
      var r := s.readers[c];
      && s.b.nextOut16[c] <= PARTS
      && (r.pc.Cleared? ==> s.b.nextOut16[c] == PARTS)
      && (!s.byParts ==> s.b.nextOut16[c] == 0)
      && (s.byParts ==>
            && PARTS * r.origin <= r.start <= NextPart(s, c) <= |s.parts|
            && r.takenParts == s.parts[r.start..NextPart(s, c)])
  }

  /** The block that part j of slot k belongs to. */
  function OwnPart(s: Sys, k: nat, j: nat): int
    requires WellSized(s) && Whole(s) >= 0 && k < Blocks(s)
  {
    if k == Idx(Whole(s), Blocks(s)) && j < s.b.nextIn16 then Whole(s) else Own(Whole(s), Blocks(s), k)
  }

  /** Fast consumer c still needs part j of slot k. */
  predicate WantedPart(s: Sys, k: nat, j: nat, c: nat)
    requires WellSized(s) && Whole(s) >= 0 && k < Blocks(s) && c < MAX_CONSUMERS
  {
    c in s.b.cmask16 && s.readers[c].pos <= OwnPart(s, k, j) &&
    s.readers[c].start <= PARTS * OwnPart(s, k, j) + j
  }

  /** Bit c of every part is set exactly while fast consumer c still needs that part. */
  ghost predicate PartBitsOk(s: Sys, c: nat)
    requires WellSized(s) && Whole(s) >= 0 && c < MAX_CONSUMERS
  {
    s.byParts ==>
      forall k, j :: 0 <= k < Blocks(s) && 0 <= j < PARTS && !Leftover(s, k, c) ==>
        (c in s.b.slots[k].busy16[j] <==> WantedPart(s, k, j, c))
  }

  /** Everything the invariant says about one consumer number. */
  ghost predicate ConsumerOk(s: Sys, c: nat)
    requires WellSized(s) && Whole(s) >= 0 && c < MAX_CONSUMERS
  {
    ReaderOk(s, c) && FastOk(s, c) && BusyOk(s, c) && PartBitsOk(s, c)
  }

  /** The producer is replacing part j of slot k. */
  predicate Replacing(s: Sys, k: nat, j: nat) {
    (Copying(s) || Publishing(s.prod)) && k == s.prod.slot && j == s.prod.part
  }

  ghost predicate PartOk(s: Sys, k: nat, j: nat)
    requires WellSized(s) && Whole(s) >= 0 && k < Blocks(s) && j < PARTS
  {
    var q := OwnPart(s, k, j);
    q >= 0 && !Replacing(s, k, j) ==>
      && PARTS * q + j < |s.parts|
      && s.parts[PARTS * q + j] == Part(s.b.slots[k].content.slices[j], s.b.slots[k].content.props16[j])
  }

  ghost predicate InvParts(s: Sys)
    requires WellSized(s) && Whole(s) >= 0
  {
    s.byParts ==> forall k, j: nat :: 0 <= k < Blocks(s) && j < PARTS ==> PartOk(s, k, j)
  }

  function CountStored(h: seq<Event>): nat {
    if h == [] then 0 else CountStored(h[..|h| - 1]) + (if h[|h| - 1].Stored? then 1 else 0)
  }

  /** Position p has been stored, by a put that has been counted. */
  predicate Counted(s: Sys, p: int) {
    Blocks(s) <= p < Blocks(s) + CountStored(s.hist)
  }

  /** The block at position p was stored by the put of its number. */
  ghost predicate SeqNumOk(s: Sys, p: nat)
    requires p < |s.log|
  {
    var q := s.log[p].prop.seqNum;
    q < |s.hist| && s.hist[q].Stored? && Blocks(s) + CountStored(s.hist[..q]) == p
  }

  ghost predicate InvHist(s: Sys)
    requires WellSized(s) && Whole(s) >= 0
  {
    && s.b.puts == |s.hist|
    && |s.log| == Blocks(s) + CountStored(s.hist) + (if s.prod.Marked? then 1 else 0)
    && s.b.drops == |s.hist| - CountStored(s.hist)
    && (s.prod.Filled? || (s.b.nextIn16 > 0 && !Publishing(s.prod)) ==>
          s.b.slots[s.b.nextIn].content.prop.seqNum == s.b.puts)
    && (s.prod.Marked? ==> s.log[|s.log| - 1].prop.seqNum == s.b.puts)
    && (forall p: nat {:trigger SeqNumOk(s, p)} :: Counted(s, p) ==> SeqNumOk(s, p))
  }

  /** The progress of a look-back search: exactly the matching blocks among the k oldest of the
      newest n-1 are marked, and the outputs name the first and the last of them. */
  ghost predicate SearchOk(m: Control, log: seq<Content>, n: nat)
    requires n > 0 && m.Marking? && m.first < n
  {
    var t := |log|;
    && m.k < n && m.i == Idx(t + 1 + m.k, n)
    && (forall p :: p in m.marks <==>
          0 <= p && t - n < p <= t - n + m.k && InPeriod(log[p].prop, m.gps, m.delta))
    && (m.first < 0 <==> m.marks == {})
    && (m.first >= 0 ==>
          var o := Own(t, n, m.first);
          && o in m.marks && m.last in m.marks
          && (forall p :: p in m.marks ==> o <= p <= m.last)
          && m.bstart == log[o].prop.gps && m.blast == log[m.last].prop.gps)
  }

  ghost predicate InvControl(s: Sys)
    requires WellSized(s)
  {
    && (s.ctl.Deleting? ==> s.ctl.c !in s.b.tcmask)
    && (s.ctl.Marking? ==> s.ctl.c !in s.b.tcmask && SearchOk(s.ctl, s.log, Blocks(s)))
  }

  /** The log begins with the blocks of a fresh ring. */
  ghost predicate BeginsEmpty(log: seq<Content>, n: nat) {
    forall p {:trigger EmptyAt(log, p)} :: 0 <= p < n ==> EmptyAt(log, p)
  }

  predicate EmptyAt(log: seq<Content>, p: int) {
    0 <= p < |log| && log[p] == EmptyContent()
  }

  lemma StillBeginsEmpty(log: seq<Content>, n: nat, x: Content)
    requires BeginsEmpty(log, n)
    ensures BeginsEmpty(log + [x], n)
  {
    forall p {:trigger EmptyAt(log + [x], p)} | 0 <= p < n ensures EmptyAt(log + [x], p) {
      assert EmptyAt(log, p);
    }
  }

  /** What is stored, without who still needs it. */
  ghost predicate StoreOk(s: Sys)
    requires WellSized(s)
  {
    BeginsEmpty(s.log, Blocks(s)) && InvIndex(s) && InvContent(s) && InvParts(s) && InvHist(s)
  }

  ghost predicate Inv(s: Sys) {
    && WellSized(s)
    && StoreOk(s)
    && InvFree(s)
    && InvMasks(s)
    && InvNumbers(s)
    && InvControl(s)
    && (forall c: nat :: c < MAX_CONSUMERS ==> ConsumerOk(s, c))
  }

  lemma InitInv(consumers: nat, blocks: nat, blockSize: nat, byParts: bool)
    requires consumers <= MAX_CONSUMERS && blocks > 0
    ensures Inv(Init(consumers, blocks, blockSize, byParts))
  {
    NumbersCard(consumers);
    var s := Init(consumers, blocks, blockSize, byParts);
    assert s.b.tcmask - s.b.cmask == {};
    InitStore(consumers, blocks, blockSize, byParts, s);
    forall c: nat | c < MAX_CONSUMERS ensures ConsumerOk(s, c) {
      InitConsumer(consumers, blocks, blockSize, byParts, s, c);
    }
  }

  lemma InitStore(consumers: nat, blocks: nat, blockSize: nat, byParts: bool, s: Sys)
    requires consumers <= MAX_CONSUMERS && blocks > 0 && s == Init(consumers, blocks, blockSize, byParts)
    ensures WellSized(s) && StoreOk(s)
  {
    InitHist(consumers, blocks, blockSize, byParts, s);
    InitIndex(consumers, blocks, blockSize, byParts, s);
    InitContents(consumers, blocks, blockSize, byParts, s);
  }

  lemma InitIndex(consumers: nat, blocks: nat, blockSize: nat, byParts: bool, s: Sys)
    requires consumers <= MAX_CONSUMERS && blocks > 0 && s == Init(consumers, blocks, blockSize, byParts)
    requires WellSized(s)
    ensures InvIndex(s)
  {
    IdxAdd(0, blocks, blocks);
  }

  lemma InitHist(consumers: nat, blocks: nat, blockSize: nat, byParts: bool, s: Sys)
    requires consumers <= MAX_CONSUMERS && blocks > 0 && s == Init(consumers, blocks, blockSize, byParts)
    ensures WellSized(s) && BeginsEmpty(s.log, Blocks(s)) && InvHist(s)
  {
    NumbersCard(consumers);
  }

  lemma InitContents(consumers: nat, blocks: nat, blockSize: nat, byParts: bool, s: Sys)
    requires consumers <= MAX_CONSUMERS && blocks > 0 && s == Init(consumers, blocks, blockSize, byParts)
    requires WellSized(s) && InvIndex(s)
    ensures InvContent(s) && InvParts(s)
  {
    IdxAdd(0, blocks, blocks);
  }

  lemma InitConsumer(consumers: nat, blocks: nat, blockSize: nat, byParts: bool, s: Sys, c: nat)
    requires consumers <= MAX_CONSUMERS && blocks > 0 && s == Init(consumers, blocks, blockSize, byParts)
    requires WellSized(s) && c < MAX_CONSUMERS
    ensures Whole(s) >= 0 && ConsumerOk(s, c)
  {
    IdxAdd(0, blocks, blocks);
  }
}
