/** The layout of a main-buffer block: one loop assigns every channel an offset in the block and an
    offset in the move buffer, a second loop rebuilds the copy plan from what the first left behind. */
module Layout {
  const PARTS: nat := 16              // DAQ_NUM_DATA_BLOCKS_PER_SECOND
  const STATUS_BYTES: nat := 68       // 17 status words of 4 bytes
  const MAX_TP: nat := 64             // DAQ_GDS_MAX_TP_ALLOWED
  const MIN_MOVE_BUFFER: nat := 131072

  /** A configured channel; bytes is its data in a second, alias is `gds & 2`. */
  datatype Channel = Channel(dcu: nat, bytes: int, alias: bool)

  /** Integer division of the source language: towards zero. */
  function Truncated(a: int, b: nat): int
    requires b > 0
  {
    if a >= 0 then a / b else -(-a / b)
  }

  /** What a channel brings each sixteenth of a second. */
  function Sixteenth(c: Channel): int {
    Truncated(c.bytes, PARTS)
  }

  /** The kinds of DCU, DAQ_DCU_BLOCK_SIZE and the sample rates of the DCUs. */
  datatype Site = Site(myrinet: set<nat>, exc: set<nat>, tp: set<nat>, dcuBlock: nat, rates: map<nat, nat>) {
    function Rate(d: nat): nat {
      if d in rates then rates[d] else 0
    }
  }

  /** The running variables and the tables of the first loop. Every table entry starts at 0. */
  datatype Plan = Plan(
    offs: int, rm: int, blockSize: int, cur: Option,
    dcuSize: map<nat, int>, daqSize: map<nat, int>, tpOffs: map<nat, int>, tpRm: map<nat, int>,
    offset: seq<int>, rmOffset: seq<int>)

  datatype Option = None | Some(dcu: nat)

  function At(m: map<nat, int>, d: nat): int {
    if d in m then m[d] else 0
  }

  const START := Plan(0, 0, 0, None, map[], map[], map[], map[], [], [])

  /** Room for two DCU blocks a sixteenth. */
  function Room(site: Site): nat {
    2 * site.dcuBlock
  }

  /** The current DCU is finished. */
  function Close(site: Site, p: Plan): Plan {
    match p.cur
    case None => p
    case Some(d) =>
      var size := At(p.dcuSize, d);
      if d in site.myrinet then
        var gap := Room(site) * PARTS - size * PARTS;
        p.(daqSize := p.daqSize[d := size], tpOffs := p.tpOffs[d := p.offs], tpRm := p.tpRm[d := p.rm],
           offs := p.offs + gap, blockSize := p.blockSize + gap, rm := p.rm + Room(site) - size,
           dcuSize := p.dcuSize[d := Room(site)])
      else p.(daqSize := p.daqSize[d := size])
  }

  /** Status word in front of the data of an EXC DCU. */
  function Lead(site: Site, c: Channel): nat {
    if c.dcu in site.exc then 4 else 0
  }

  /** One channel is given its place. */
  function Place(site: Site, p: Plan, c: Channel): Plan {
    if c.alias then p.(cur := Some(c.dcu), offset := p.offset + [0], rmOffset := p.rmOffset + [0])
    else
      p.(cur := Some(c.dcu),
         offset := p.offset + [p.offs],
         rmOffset := p.rmOffset + [p.rm + Lead(site, c)],
         offs := p.offs + c.bytes, blockSize := p.blockSize + c.bytes,
         rm := p.rm + Sixteenth(c) + Lead(site, c),
         dcuSize := p.dcuSize[c.dcu := At(p.dcuSize, c.dcu) + Sixteenth(c) + Lead(site, c)])
  }

  /** Channel i (or the end of the list) does not belong to the current DCU. */
  predicate Finishes(chans: seq<Channel>, cur: Option, i: nat)
    requires i <= |chans|
  {
    i == |chans| || (cur.Some? && cur.dcu != chans[i].dcu)
  }

  /** The first loop after i turns. */
  function Planned(site: Site, chans: seq<Channel>, i: nat): (p: Plan)
    requires i <= |chans|
    ensures |p.offset| == i && |p.rmOffset| == i
    ensures p.cur == if i == 0 then None else Some(chans[i - 1].dcu)
    ensures p.offs == p.blockSize
    decreases i, 0
  {
    if i == 0 then START else Place(site, Closed(site, chans, i - 1), chans[i - 1])
  }

  /** The first loop in its turn i, once a finished DCU has been closed. */
  function Closed(site: Site, chans: seq<Channel>, i: nat): (p: Plan)
    requires i <= |chans|
    ensures |p.offset| == i && |p.rmOffset| == i
    ensures p.offs == p.blockSize
    decreases i, 1
  {
    var p := Planned(site, chans, i);
    if Finishes(chans, p.cur, i) then Close(site, p) else p
  }

  /** What the first loop leaves behind. */
  function Final(site: Site, chans: seq<Channel>): Plan {
    Closed(site, chans, |chans|)
  }

  /** daqd.block_size with the status words of all channels. */
  function BlockSize(site: Site, chans: seq<Channel>): int {
    Final(site, chans).blockSize + STATUS_BYTES * |chans|
  }

  function StatusStart(site: Site, chans: seq<Channel>): int {
    BlockSize(site, chans) - STATUS_BYTES * |chans|
  }

  function MoveBuffer(site: Site, chans: seq<Channel>): int {
    var s := BlockSize(site, chans) / PARTS;
    if s < MIN_MOVE_BUFFER then MIN_MOVE_BUFFER else s
  }

  // ---- the copy plan ----------------------------------------------------------------------

  datatype StatusWord = Zero | InMoveBuffer(at: int) | OfDcu(dcu: nat)
  datatype StatusDest = Nowhere | To(at: int)

  /** put_dpvec; source addresses count from the start of the move buffer. */
  datatype Vec = Vec(src: int, dest: int, len: int, status: StatusWord, statusDest: StatusDest)

  function TestPointSize(site: Site, d: nat): nat {
    4 * site.Rate(d) / PARTS
  }

  /** How many test points fit behind the data of DCU d. */
  function TestPoints(site: Site, f: Plan, d: nat): int
    requires TestPointSize(site, d) > 0
  {
    var n := Truncated(Room(site) - At(f.daqSize, d), TestPointSize(site, d));
    if n > MAX_TP then MAX_TP else n
  }

  function TestPoint(site: Site, f: Plan, d: nat, j: nat): Vec {
    Vec(At(f.tpRm, d) + j * TestPointSize(site, d),
        At(f.tpOffs, d) + j * TestPointSize(site, d) * PARTS,
        4 * site.Rate(d) / 16, Zero, Nowhere)
  }

  function TestPointVecs(site: Site, f: Plan, d: nat, j: nat): (v: seq<Vec>)
    ensures |v| == j && forall k :: 0 <= k < j ==> v[k] == TestPoint(site, f, d, k)
  {
    if j == 0 then [] else TestPointVecs(site, f, d, j - 1) + [TestPoint(site, f, d, j - 1)]
  }

  /** Where the status of a channel is read from. */
  function StatusOf(site: Site, c: Channel, src: int): StatusWord {
    if c.dcu in site.exc then InMoveBuffer(src - 4)
    else if c.dcu in site.tp then Zero
    else OfDcu(c.dcu)
  }

  function ChannelVec(site: Site, chans: seq<Channel>, f: Plan, i: nat): Vec
    requires i < |chans| && |f.offset| == |f.rmOffset| == |chans|
  {
    Vec(f.rmOffset[i], f.offset[i], Sixteenth(chans[i]), StatusOf(site, chans[i], f.rmOffset[i]),
        To(StatusStart(site, chans) + STATUS_BYTES * i))
  }

  /** Every Myrinet DCU with channels samples fast enough for its test points to have a size; otherwise
      the source divides by zero. */
  ghost predicate RatesOk(site: Site, chans: seq<Channel>) {
    forall c :: c in chans && c.dcu in site.myrinet ==> site.Rate(c.dcu) >= 4
  }

  /** The vectors that turn i of the second loop adds for a finished DCU. */
  function ClosingVecs(site: Site, chans: seq<Channel>, i: nat): seq<Vec>
    requires i <= |chans| && RatesOk(site, chans)
  {
    if i > 0 && Finishes(chans, Some(chans[i - 1].dcu), i) && chans[i - 1].dcu in site.myrinet then
      assert chans[i - 1] in chans;
      var d := chans[i - 1].dcu;
      var n := TestPoints(site, Final(site, chans), d);
      TestPointVecs(site, Final(site, chans), d, if n < 0 then 0 else n)
    else []
  }

  /** The copy plan after i turns of the second loop. */
  function Copied(site: Site, chans: seq<Channel>, i: nat): seq<Vec>
    requires i <= |chans| && RatesOk(site, chans)
    decreases i, 0
  {
    if i == 0 then []
    else
      CopiedClosed(site, chans, i - 1) +
      (if chans[i - 1].alias then [] else [ChannelVec(site, chans, Final(site, chans), i - 1)])
  }

  function CopiedClosed(site: Site, chans: seq<Channel>, i: nat): seq<Vec>
    requires i <= |chans| && RatesOk(site, chans)
    decreases i, 1
  {
    Copied(site, chans, i) + ClosingVecs(site, chans, i)
  }

  /** The whole copy plan. */
  function CopyPlan(site: Site, chans: seq<Channel>): seq<Vec>
    requires RatesOk(site, chans)
  {
    CopiedClosed(site, chans, |chans|)
  }

  lemma {:induction false} PlanGrows(site: Site, chans: seq<Channel>, i: nat, j: nat)
    requires i < j <= |chans| && RatesOk(site, chans)
    ensures |Copied(site, chans, i)| + |ClosingVecs(site, chans, i)| + (if chans[i].alias then 0 else 1)
            <= |CopiedClosed(site, chans, j)|
    decreases j
  {
    assert |CopiedClosed(site, chans, j)| >= |Copied(site, chans, j)|;
    assert |Copied(site, chans, j)| == |CopiedClosed(site, chans, j - 1)| + (if chans[j - 1].alias then 0 else 1);
    if i + 1 < j {
      PlanGrows(site, chans, i, j - 1);
    }
  }

  lemma PlanStep(site: Site, chans: seq<Channel>, i: nat)
    requires i < |chans|
    ensures var p := Planned(site, chans, i);
      Planned(site, chans, i + 1) == Place(site, if Finishes(chans, p.cur, i) then Close(site, p) else p, chans[i])
  {
  }

  lemma CopyStep(site: Site, chans: seq<Channel>, i: nat)
    requires i < |chans| && RatesOk(site, chans)
    ensures Copied(site, chans, i + 1) ==
            Copied(site, chans, i) + ClosingVecs(site, chans, i) +
            (if chans[i].alias then [] else [ChannelVec(site, chans, Final(site, chans), i)])
  {
  }
}
