/** The two layout loops agree: what the copy plan writes never overlaps and stays inside the block,
    and what it reads stays inside the move buffer. */
module LayoutSound {
  import opened Layout

  /** The channels of one DCU stand together, as they do once sorted. */
  ghost predicate Grouped(chans: seq<Channel>) {
    forall i, j, k :: 0 <= i < j < k < |chans| && chans[i].dcu == chans[k].dcu ==> chans[j].dcu == chans[i].dcu
  }

  lemma GroupedAt(chans: seq<Channel>, i: nat, j: nat, k: nat)
    requires Grouped(chans) && i < j < k < |chans|
    ensures chans[k].dcu != chans[i].dcu || chans[j].dcu == chans[i].dcu
  {
  }

  /** What the channels of DCU d need in the move buffer, over the first i channels. */
  function DcuData(site: Site, chans: seq<Channel>, i: nat, d: nat): int
    requires i <= |chans|
  {
    if i == 0 then 0
    else
      DcuData(site, chans, i - 1, d) +
      (if chans[i - 1].dcu == d && !chans[i - 1].alias then Sixteenth(chans[i - 1]) + Lead(site, chans[i - 1])
       else 0)
  }

  /** No Myrinet DCU has more data than the room set aside for it. */
  ghost predicate Fits(site: Site, chans: seq<Channel>) {
    forall c :: c in chans && c.dcu in site.myrinet ==> DcuData(site, chans, |chans|, c.dcu) <= Room(site)
  }

  /** No copied channel has less than no data. */
  ghost predicate Sized(chans: seq<Channel>) {
    forall c :: c in chans && !c.alias ==> c.bytes >= 0
  }

  lemma {:induction false} DcuDataGrows(site: Site, chans: seq<Channel>, i: nat, j: nat, d: nat)
    requires i <= j <= |chans| && Sized(chans)
    ensures DcuData(site, chans, i, d) <= DcuData(site, chans, j, d)
    decreases j
  {
    if i < j {
      assert chans[j - 1] in chans;
      DcuDataGrows(site, chans, i, j - 1, d);
    }
  }

  /** DCU d has not been finished before turn i. */
  ghost predicate Open(chans: seq<Channel>, i: nat, d: nat)
    requires i <= |chans|
  {
    (i > 0 && chans[i - 1].dcu == d) || forall k :: 0 <= k < i ==> chans[k].dcu != d
  }

  /** Up to the turn that finishes it, the size kept for a DCU is the size of its data. */
  lemma {:induction false} SizeSoFar(site: Site, chans: seq<Channel>, i: nat, d: nat)
    requires Grouped(chans) && i <= |chans| && Open(chans, i, d)
    ensures At(Planned(site, chans, i).dcuSize, d) == DcuData(site, chans, i, d)
    decreases i
  {
    if i > 0 {
      if i > 1 && chans[i - 1].dcu == d && chans[i - 2].dcu != d {
        forall k | 0 <= k < i - 1 ensures chans[k].dcu != d {
          if k < i - 2 {
            GroupedAt(chans, k, i - 2, i - 1);
          }
        }
      }
      SizeSoFar(site, chans, i - 1, d);
      assert At(Closed(site, chans, i - 1).dcuSize, d) == At(Planned(site, chans, i - 1).dcuSize, d);
    }
  }

  /** Finishing a DCU never moves an offset back. */
  lemma ClosingAdvances(site: Site, chans: seq<Channel>, i: nat)
    requires Grouped(chans) && Fits(site, chans) && Sized(chans) && i <= |chans|
    ensures var p, q := Planned(site, chans, i), Closed(site, chans, i);
      if i > 0 && Finishes(chans, p.cur, i) && chans[i - 1].dcu in site.myrinet then
        var room := Room(site) - DcuData(site, chans, i, chans[i - 1].dcu);
        room >= 0 && q.offs == p.offs + PARTS * room && q.rm == p.rm + room
      else q.offs == p.offs && q.rm == p.rm
  {
    if i > 0 {
      var d := chans[i - 1].dcu;
      SizeSoFar(site, chans, i, d);
      DcuDataGrows(site, chans, i, |chans|, d);
      assert chans[i - 1] in chans;
    }
  }

  /** The tables that the second loop reads for DCU d. */
  ghost predicate SameTables(p: Plan, q: Plan, d: nat) {
    At(p.daqSize, d) == At(q.daqSize, d) && At(p.tpOffs, d) == At(q.tpOffs, d) && At(p.tpRm, d) == At(q.tpRm, d)
  }

  lemma StepKeeps(site: Site, p: Plan, c: Channel, d: nat)
    ensures SameTables(p, Place(site, p, c), d)
    ensures p.cur != Some(d) ==> SameTables(p, Close(site, p), d)
    ensures Close(site, p).offset == p.offset && Close(site, p).rmOffset == p.rmOffset
  {
  }

  /** The tables of a finished DCU are not written again. */
  lemma {:induction false} TablesKept(site: Site, chans: seq<Channel>, i: nat, j: nat)
    requires Grouped(chans) && 0 < i <= j <= |chans| && Finishes(chans, Some(chans[i - 1].dcu), i)
    ensures SameTables(Closed(site, chans, j), Closed(site, chans, i), chans[i - 1].dcu)
    decreases j
  {
    if i < j {
      var d := chans[i - 1].dcu;
      TablesKept(site, chans, i, j - 1);
      assert chans[j - 1].dcu != d by {
        if i < j - 1 {
          GroupedAt(chans, i - 1, i, j - 1);
        }
      }
      StepKeeps(site, Closed(site, chans, j - 1), chans[j - 1], d);
      StepKeeps(site, Planned(site, chans, j), chans[j - 1], d);
    }
  }

  /** A channel keeps the offsets it was given. */
  lemma {:induction false} OffsetsKept(site: Site, chans: seq<Channel>, i: nat, j: nat)
    requires i < j <= |chans|
    ensures Closed(site, chans, j).offset[i] == Planned(site, chans, i + 1).offset[i]
    ensures Closed(site, chans, j).rmOffset[i] == Planned(site, chans, i + 1).rmOffset[i]
    decreases j
  {
    StepKeeps(site, Planned(site, chans, j), chans[i], 0);
    if i + 1 < j {
      OffsetsKept(site, chans, i, j - 1);
      assert Planned(site, chans, j) == Place(site, Closed(site, chans, j - 1), chans[j - 1]);
    }
  }

  // ---- what a copy plan occupies -------------------------------------------------------------

  /** The first byte a vector reads. */
  function Low(v: Vec): int {
    if v.status.InMoveBuffer? then v.status.at else v.src
  }

  ghost predicate Inside(v: Vec, offs: int, rm: int, from: int, to: int) {
    && v.len >= 0 && 0 <= v.dest && v.dest + PARTS * v.len <= offs
    && 0 <= Low(v) <= v.src && v.src + v.len <= rm
    && (v.status.InMoveBuffer? ==> v.status.at + 4 <= v.src)
    && (v.statusDest.To? ==> from <= v.statusDest.at && v.statusDest.at + STATUS_BYTES <= to)
  }

  ghost predicate Before(v: Vec, w: Vec) {
    && v.dest + PARTS * v.len <= w.dest
    && v.src + v.len <= Low(w)
    && (v.statusDest.To? && w.statusDest.To? ==> v.statusDest.at + STATUS_BYTES <= w.statusDest.at)
  }

  function TotalLen(vs: seq<Vec>): int {
    if vs == [] then 0 else TotalLen(vs[..|vs| - 1]) + vs[|vs| - 1].len
  }

  /** The vectors follow one another, in the block up to offs, in the move buffer up to rm, and among
      the status words between from and to. */
  ghost predicate Packed(vs: seq<Vec>, offs: int, rm: int, from: int, to: int) {
    && (forall a :: 0 <= a < |vs| ==> Inside(vs[a], offs, rm, from, to))
    && (forall a, b :: 0 <= a < b < |vs| ==> Before(vs[a], vs[b]))
    && 0 <= PARTS * TotalLen(vs) <= offs
  }

  lemma PackedMore(vs: seq<Vec>, v: Vec, offs: int, rm: int, from: int, to: int, offs': int, rm': int, to': int)
    requires Packed(vs, offs, rm, from, to) && offs <= offs' && rm <= rm' && to <= to'
    requires Inside(v, offs', rm', from, to') && offs <= v.dest && rm <= Low(v)
    requires v.statusDest.To? ==> to <= v.statusDest.at
    ensures Packed(vs + [v], offs', rm', from, to')
  {
    var ws := vs + [v];
    assert ws[..|vs|] == vs;
    forall a, b | 0 <= a < b < |ws| ensures Before(ws[a], ws[b]) {
      assert Inside(vs[a], offs, rm, from, to);
      if b < |vs| {
        assert Before(vs[a], vs[b]);
      }
    }
  }

  lemma PackedWider(vs: seq<Vec>, offs: int, rm: int, from: int, to: int, offs': int, rm': int, to': int)
    requires Packed(vs, offs, rm, from, to) && offs <= offs' && rm <= rm' && to <= to'
    ensures Packed(vs, offs', rm', from, to')
  {
    forall a | 0 <= a < |vs| ensures Inside(vs[a], offs', rm', from, to') {
      assert Inside(vs[a], offs, rm, from, to);
    }
  }

  lemma OneTestPoint(vs: seq<Vec>, v: Vec, offs: int, rm: int, k: int, size: nat, from: int, to: int)
    requires Packed(vs, offs + PARTS * k, rm + k, from, to) && offs >= 0 && rm >= 0 && k >= 0
    requires v == Vec(rm + k, offs + k * PARTS, size, Zero, Nowhere)
    ensures Packed(vs + [v], offs + PARTS * (k + size), rm + k + size, from, to)
  {
    PackedMore(vs, v, offs + PARTS * k, rm + k, from, to, offs + PARTS * (k + size), rm + k + size, to);
  }

  function RowVec(offs: int, rm: int, size: nat, k: nat): Vec {
    Vec(rm + k * size, offs + k * size * PARTS, size, Zero, Nowhere)
  }

  /** Equally long vectors side by side. */
  lemma {:induction false} PackedRow(vs: seq<Vec>, row: seq<Vec>, offs: int, rm: int, size: nat, from: int, to: int)
    requires Packed(vs, offs, rm, from, to) && offs >= 0 && rm >= 0
    requires forall k :: 0 <= k < |row| ==> row[k] == RowVec(offs, rm, size, k)
    ensures Packed(vs + row, offs + PARTS * (|row| * size), rm + |row| * size, from, to)
    decreases |row|
  {
    if row == [] {
      assert vs + row == vs;
    } else {
      var j := |row| - 1;
      var front := row[..j];
      PackedRow(vs, front, offs, rm, size, from, to);
      var k := j * size;
      NextRow(offs, rm, size, j, k);
      OneTestPoint(vs + front, row[j], offs, rm, k, size, from, to);
      assert vs + front + [row[j]] == vs + row;
    }
  }

  lemma NextRow(offs: int, rm: int, size: nat, j: nat, k: int)
    requires k == j * size
    ensures k >= 0 && (j + 1) * size == k + size
    ensures RowVec(offs, rm, size, j) == Vec(rm + k, offs + k * PARTS, size, Zero, Nowhere)
  {
  }

  /** Test points behind the data of a DCU. */
  lemma PackedTestPoints(site: Site, f: Plan, d: nat, j: nat, vs: seq<Vec>, from: int, to: int)
    requires Packed(vs, At(f.tpOffs, d), At(f.tpRm, d), from, to) && At(f.tpOffs, d) >= 0 && At(f.tpRm, d) >= 0
    ensures var k := j * TestPointSize(site, d);
      Packed(vs + TestPointVecs(site, f, d, j), At(f.tpOffs, d) + PARTS * k, At(f.tpRm, d) + k, from, to)
  {
    PackedRow(vs, TestPointVecs(site, f, d, j), At(f.tpOffs, d), At(f.tpRm, d), TestPointSize(site, d), from, to);
  }

  // ---- the two loops side by side --------------------------------------------------------------

  ghost predicate Ready(site: Site, chans: seq<Channel>) {
    Grouped(chans) && Fits(site, chans) && RatesOk(site, chans) && Sized(chans)
  }

  /** The copy plan so far lies where the first loop has laid it out so far. */
  ghost predicate PackedAt(site: Site, chans: seq<Channel>, vs: seq<Vec>, p: Plan, i: nat) {
    0 <= p.offs && 0 <= p.rm &&
    Packed(vs, p.offs, p.rm, StatusStart(site, chans), StatusStart(site, chans) + STATUS_BYTES * i)
  }

  lemma RoomFilled(site: Site, f: Plan, d: nat, room: nat)
    requires TestPointSize(site, d) > 0 && At(f.daqSize, d) == Room(site) - room
    ensures 0 <= TestPoints(site, f, d) && TestPoints(site, f, d) * TestPointSize(site, d) <= room
  {
    var n, size := TestPoints(site, f, d), TestPointSize(site, d);
    assert (room / size) * size <= room;
    Product(n, room / size, size);
  }

  lemma Product(a: nat, b: nat, c: nat)
    requires a <= b
    ensures a * c <= b * c
  {
  }

  /** Turn i of both loops finishes a Myrinet DCU. */
  ghost predicate ClosesRoom(site: Site, chans: seq<Channel>, i: nat) {
    0 < i <= |chans| && Finishes(chans, Some(chans[i - 1].dcu), i) && chans[i - 1].dcu in site.myrinet
  }

  /** What the second loop finds in the tables when it finishes a DCU. */
  lemma TablesFound(site: Site, chans: seq<Channel>, i: nat)
    requires Ready(site, chans) && ClosesRoom(site, chans, i)
    ensures var p, f, d := Planned(site, chans, i), Final(site, chans), chans[i - 1].dcu;
      At(f.tpOffs, d) == p.offs && At(f.tpRm, d) == p.rm && At(f.daqSize, d) == DcuData(site, chans, i, d)
  {
    SizeSoFar(site, chans, i, chans[i - 1].dcu);
    TablesKept(site, chans, i, |chans|);
  }

  lemma RoomPacked(site: Site, chans: seq<Channel>, i: nat)
    requires Ready(site, chans) && ClosesRoom(site, chans, i)
    requires PackedAt(site, chans, Copied(site, chans, i), Planned(site, chans, i), i)
    ensures PackedAt(site, chans, CopiedClosed(site, chans, i), Closed(site, chans, i), i)
  {
    var p, q, f, d := Planned(site, chans, i), Closed(site, chans, i), Final(site, chans), chans[i - 1].dcu;
    var from := StatusStart(site, chans);
    var to := from + STATUS_BYTES * i;
    ClosingAdvances(site, chans, i);
    TablesFound(site, chans, i);
    assert chans[i - 1] in chans;
    RoomFilled(site, f, d, Room(site) - DcuData(site, chans, i, d));
    var n := TestPoints(site, f, d);
    PackedTestPoints(site, f, d, n, Copied(site, chans, i), from, to);
    assert CopiedClosed(site, chans, i) == Copied(site, chans, i) + TestPointVecs(site, f, d, n);
    var k := n * TestPointSize(site, d);
    PackedWider(CopiedClosed(site, chans, i), p.offs + PARTS * k, p.rm + k, from, to, q.offs, q.rm, to);
  }

  lemma ClosingPacked(site: Site, chans: seq<Channel>, i: nat)
    requires Ready(site, chans) && i <= |chans|
    requires PackedAt(site, chans, Copied(site, chans, i), Planned(site, chans, i), i)
    ensures PackedAt(site, chans, CopiedClosed(site, chans, i), Closed(site, chans, i), i)
  {
    if ClosesRoom(site, chans, i) {
      RoomPacked(site, chans, i);
    } else {
      ClosingAdvances(site, chans, i);
      assert CopiedClosed(site, chans, i) == Copied(site, chans, i);
    }
  }

  lemma ChannelPacked(site: Site, chans: seq<Channel>, i: nat)
    requires Ready(site, chans) && i < |chans|
    requires PackedAt(site, chans, CopiedClosed(site, chans, i), Closed(site, chans, i), i)
    ensures PackedAt(site, chans, Copied(site, chans, i + 1), Planned(site, chans, i + 1), i + 1)
  {
    var q, r := Closed(site, chans, i), Planned(site, chans, i + 1);
    var vs := CopiedClosed(site, chans, i);
    var from := StatusStart(site, chans);
    var to := from + STATUS_BYTES * i;
    if chans[i].alias {
      assert Copied(site, chans, i + 1) == vs;
      PackedWider(vs, q.offs, q.rm, from, to, r.offs, r.rm, to + STATUS_BYTES);
    } else {
      OffsetsKept(site, chans, i, |chans|);
      var v := ChannelVec(site, chans, Final(site, chans), i);
      assert v.dest == q.offs && v.src == q.rm + Lead(site, chans[i]);
      PackedMore(vs, v, q.offs, q.rm, from, to, r.offs, r.rm, to + STATUS_BYTES);
    }
  }

  lemma {:induction false} CopyPacked(site: Site, chans: seq<Channel>, i: nat)
    requires Ready(site, chans) && i <= |chans|
    ensures PackedAt(site, chans, Copied(site, chans, i), Planned(site, chans, i), i)
    decreases i
  {
    if i > 0 {
      CopyPacked(site, chans, i - 1);
      ClosingPacked(site, chans, i - 1);
      ChannelPacked(site, chans, i - 1);
    }
  }

  /** The whole plan is packed into the data area. */
  lemma PlanPacked(site: Site, chans: seq<Channel>)
    requires Ready(site, chans)
    ensures StatusStart(site, chans) == Final(site, chans).offs
    ensures PackedAt(site, chans, CopyPlan(site, chans), Final(site, chans), |chans|)
  {
    CopyPacked(site, chans, |chans|);
    ClosingPacked(site, chans, |chans|);
  }

  // ---- main results -----------------------------------------------------------------------------

  ghost predicate Apart(a: int, m: int, b: int, n: int) {
    a + m <= b || b + n <= a
  }

  /** Vectors that do not get into each other's way: no two write to the same byte, all data lies in
      front of `split`, the status words behind it. */
  ghost predicate Separate(vs: seq<Vec>, split: int, size: int) {
    && (forall a :: 0 <= a < |vs| ==> 0 <= vs[a].len && 0 <= vs[a].dest && vs[a].dest + PARTS * vs[a].len <= split)
    && (forall a :: 0 <= a < |vs| && vs[a].statusDest.To? ==>
          split <= vs[a].statusDest.at && vs[a].statusDest.at + STATUS_BYTES <= size)
    && (forall a, b :: 0 <= a < |vs| && 0 <= b < |vs| && a != b ==>
          && Apart(vs[a].dest, PARTS * vs[a].len, vs[b].dest, PARTS * vs[b].len)
          && (vs[a].statusDest.To? && vs[b].statusDest.To? ==>
                Apart(vs[a].statusDest.at, STATUS_BYTES, vs[b].statusDest.at, STATUS_BYTES)))
  }

  /** The two loops agree: what the plan writes is separate, and inside the block. */
  ghost predicate Sound(site: Site, chans: seq<Channel>)
    requires RatesOk(site, chans)
  {
    Separate(CopyPlan(site, chans), StatusStart(site, chans), BlockSize(site, chans))
  }

  /** The plan of grouped channels that fit is sound. */
  lemma LayoutSoundness(site: Site, chans: seq<Channel>)
    requires Ready(site, chans)
    ensures Sound(site, chans)
  {
    PlanPacked(site, chans);
    var vs, f := CopyPlan(site, chans), Final(site, chans);
    var s := StatusStart(site, chans);
    forall a | 0 <= a < |vs| ensures Inside(vs[a], f.offs, f.rm, s, BlockSize(site, chans)) {
    }
    forall a, b | 0 <= a < |vs| && 0 <= b < |vs| && a != b
      ensures Before(vs[a], vs[b]) || Before(vs[b], vs[a])
    {
      if a < b {
        assert Before(vs[a], vs[b]);
      } else {
        assert Before(vs[b], vs[a]);
      }
    }
  }

  /** The assertion in the scatter loop holds for each of the 16 parts, and the parts of all vectors
      together fit the block. */
  lemma BoundsAlwaysHold(site: Site, chans: seq<Channel>, a: nat, part: nat)
    requires Ready(site, chans) && a < |CopyPlan(site, chans)| && part < PARTS
    ensures var v := CopyPlan(site, chans)[a];
      v.dest + v.len * part + v.len <= BlockSize(site, chans)
    ensures PARTS * TotalLen(CopyPlan(site, chans)) <= BlockSize(site, chans)
  {
    PlanPacked(site, chans);
    var v := CopyPlan(site, chans)[a];
    assert Inside(v, Final(site, chans).offs, Final(site, chans).rm, StatusStart(site, chans), BlockSize(site, chans));
    assert v.len * part + v.len <= PARTS * v.len by {
      Product(part + 1, PARTS, v.len);
      assert (part + 1) * v.len == v.len * part + v.len;
    }
  }

  /** The status words of the channels pay for the words in front of the EXC data. */
  lemma {:induction false} RmPaid(site: Site, chans: seq<Channel>, i: nat)
    requires Ready(site, chans) && i <= |chans|
    ensures PARTS * Planned(site, chans, i).rm <= Planned(site, chans, i).offs + 64 * i
    ensures PARTS * Closed(site, chans, i).rm <= Closed(site, chans, i).offs + 64 * i
    decreases i
  {
    if i > 0 {
      RmPaid(site, chans, i - 1);
      assert chans[i - 1] in chans;
    }
    ClosingAdvances(site, chans, i);
  }

  /** Everything the plan reads from the move buffer is in it, and no two vectors share a byte of it. */
  lemma MoveBufferCovers(site: Site, chans: seq<Channel>)
    requires Ready(site, chans)
    ensures var vs := CopyPlan(site, chans);
      && (forall a :: 0 <= a < |vs| ==>
            0 <= Low(vs[a]) <= vs[a].src && vs[a].src + vs[a].len <= MoveBuffer(site, chans) &&
            (vs[a].status.InMoveBuffer? ==> vs[a].status.at + 4 <= vs[a].src))
      && (forall a, b :: 0 <= a < b < |vs| ==> vs[a].src + vs[a].len <= Low(vs[b]))
    ensures MoveBuffer(site, chans) == 128 * 1024 || 128 * 1024 < MoveBuffer(site, chans) <= BlockSize(site, chans) / 16
  {
    PlanPacked(site, chans);
    RmPaid(site, chans, |chans|);
    var vs, f := CopyPlan(site, chans), Final(site, chans);
    assert f.rm <= MoveBuffer(site, chans);
    forall a | 0 <= a < |vs|
      ensures 0 <= Low(vs[a]) <= vs[a].src && vs[a].src + vs[a].len <= MoveBuffer(site, chans)
      ensures vs[a].status.InMoveBuffer? ==> vs[a].status.at + 4 <= vs[a].src
    {
      assert Inside(vs[a], f.offs, f.rm, StatusStart(site, chans), BlockSize(site, chans));
    }
    forall a, b | 0 <= a < b < |vs| ensures vs[a].src + vs[a].len <= Low(vs[b]) {
      assert Before(vs[a], vs[b]);
    }
  }

  /** Every channel that is not an alias is copied, to the offset and the status words it was given. */
  lemma {:induction false} ChannelIsPlanned(site: Site, chans: seq<Channel>, i: nat, j: nat)
    requires RatesOk(site, chans) && i < j <= |chans| && !chans[i].alias
    ensures ChannelVec(site, chans, Final(site, chans), i) in Copied(site, chans, j)
    ensures ChannelVec(site, chans, Final(site, chans), i) in CopiedClosed(site, chans, j)
    decreases j
  {
    if i + 1 < j {
      ChannelIsPlanned(site, chans, i, j - 1);
    }
  }
}
