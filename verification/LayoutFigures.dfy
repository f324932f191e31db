/** The layout in figures: where a channel is in the block and in the move buffer, how much room a DCU takes, how many
    test points follow its data, and how big the block is. */
module LayoutFigures {
  import opened Layout
  import opened LayoutSound
  import opened LayoutExact

  /** Division drops the fraction, whatever the sign. */
  lemma TruncatesToZero(a: int, b: nat)
    requires b > 0
    ensures var q, r := Truncated(a, b), a - Truncated(a, b) * b;
      && 0 - b < r < b && (a >= 0 ==> q >= 0 && r >= 0) && (a <= 0 ==> q <= 0 && r <= 0)
  {
    if a < 0 {
      var q := -a / b;
      assert -a == q * b + -a % b;
      assert -q * b == -(q * b);
    }
  }

  // ---- channels ---------------------------------------------------------------------------------

  lemma FinalPlace(site: Site, chans: seq<Channel>, i: nat)
    requires i < |chans| && !chans[i].alias
    ensures var f, q := Final(site, chans), Closed(site, chans, i);
      f.offset[i] == q.offs && f.rmOffset[i] == q.rm + if chans[i].dcu in site.exc then 4 else 0
  {
    OffsetsKept(site, chans, i, |chans|);
  }

  /** Channels of a DCU follow one another: in the block without a gap, and in the move buffer without a gap but for the
      status word in front of every channel of an EXC DCU. */
  lemma NextToEachOther(site: Site, chans: seq<Channel>, i: nat)
    requires i + 1 < |chans| && chans[i].dcu == chans[i + 1].dcu && !chans[i].alias && !chans[i + 1].alias
    requires chans[i].bytes % 16 == 0
    ensures var f := Final(site, chans);
      && f.offset[i + 1] == f.offset[i] + chans[i].bytes
      && 16 * f.rmOffset[i + 1] == 16 * f.rmOffset[i] + chans[i].bytes + if chans[i].dcu in site.exc then 64 else 0
  {
    FinalPlace(site, chans, i);
    FinalPlace(site, chans, i + 1);
    assert Planned(site, chans, i + 1).cur == Some(chans[i].dcu);
    SixteenthIs(chans[i]);
  }

  lemma SixteenthIs(c: Channel)
    requires c.bytes % 16 == 0
    ensures 16 * Sixteenth(c) == c.bytes
  {
  }

  // ---- DCUs -------------------------------------------------------------------------------------

  /** The data of a Myrinet DCU so far. */
  lemma {:induction false} MyrinetData(site: Site, chans: seq<Channel>, g: nat, e: nat, k: nat)
    requires Admitted(site, chans) && Run(chans, g, e) && g < k <= e && chans[g].dcu in site.myrinet
    ensures Planned(site, chans, k).offs == Closed(site, chans, g).offs + 16 * DcuData(site, chans, k, chans[g].dcu)
    ensures Planned(site, chans, k).rm == Closed(site, chans, g).rm + DcuData(site, chans, k, chans[g].dcu)
    decreases k
  {
    var d := chans[g].dcu;
    assert chans[k - 1] in chans && chans[k - 1].dcu == d && d !in site.exc;
    if !chans[k - 1].alias {
      SixteenthIs(chans[k - 1]);
    }
    OffsStep(site, chans, g, e, k - 1);
    if k == g + 1 {
      NoMoreData(site, chans, 0, g, d);
    } else {
      MyrinetData(site, chans, g, e, k - 1);
    }
  }

  /** However much data it has, a Myrinet DCU takes two DCU blocks a sixteenth: that far on the next DCU starts, in the
      move buffer and, sixteenfold, in the block. */
  lemma RoomTaken(site: Site, chans: seq<Channel>, g: nat, e: nat)
    requires Grouped(chans) && Admitted(site, chans) && Run(chans, g, e) && chans[g].dcu in site.myrinet
    ensures Closed(site, chans, e).offs == Closed(site, chans, g).offs + 32 * site.dcuBlock
    ensures Closed(site, chans, e).rm == Closed(site, chans, g).rm + 2 * site.dcuBlock
  {
    assert chans[e - 1].dcu == chans[g].dcu;
    SizeSoFar(site, chans, e, chans[g].dcu);
    MyrinetData(site, chans, g, e, e);
  }

  lemma SizeKeptByStep(site: Site, p: Plan, c: Channel, d: nat)
    requires c.dcu != d && p.cur != Some(d)
    ensures At(Place(site, Close(site, p), c).dcuSize, d) == At(p.dcuSize, d)
    ensures At(Place(site, p, c).dcuSize, d) == At(p.dcuSize, d) && At(Close(site, p).dcuSize, d) == At(p.dcuSize, d)
  {
  }

  lemma {:induction false} SizeKept(site: Site, chans: seq<Channel>, i: nat, j: nat)
    requires Grouped(chans) && 0 < i <= j <= |chans| && Finishes(chans, Some(chans[i - 1].dcu), i)
    ensures At(Closed(site, chans, j).dcuSize, chans[i - 1].dcu) == At(Closed(site, chans, i).dcuSize, chans[i - 1].dcu)
    decreases j
  {
    if i < j {
      var d := chans[i - 1].dcu;
      SizeKept(site, chans, i, j - 1);
      assert chans[j - 1].dcu != d by {
        if i < j - 1 {
          GroupedAt(chans, i - 1, i, j - 1);
        }
      }
      SizeKeptByStep(site, Closed(site, chans, j - 1).(cur := None), chans[j - 1], d);
      SizeKeptByStep(site, Planned(site, chans, j), Channel(d + 1, 0, true), d);
    }
  }

  /** The sizes left for a DCU: the data of its channels, and what it takes of the move buffer, two DCU blocks for a
      Myrinet DCU and otherwise just its data. */
  lemma SizesOfDcu(site: Site, chans: seq<Channel>, i: nat)
    requires Grouped(chans) && 0 < i <= |chans| && Finishes(chans, Some(chans[i - 1].dcu), i)
    ensures var f, d := Final(site, chans), chans[i - 1].dcu;
      && At(f.daqSize, d) == DcuData(site, chans, i, d)
      && At(f.dcuSize, d) == if d in site.myrinet then 2 * site.dcuBlock else DcuData(site, chans, i, d)
  {
    SizeSoFar(site, chans, i, chans[i - 1].dcu);
    TablesKept(site, chans, i, |chans|);
    SizeKept(site, chans, i, |chans|);
  }

  /** The test points of a Myrinet DCU: as many as there is room for behind its data, but no more than 64; they follow
      the data and one another without a gap, carry no status and are never zeroed. */
  lemma TestPointsPlanned(site: Site, chans: seq<Channel>, i: nat)
    requires Ready(site, chans) && ClosesRoom(site, chans, i)
    ensures var vs, p, d := ClosingVecs(site, chans, i), Planned(site, chans, i), chans[i - 1].dcu;
      var size, room := 4 * site.Rate(d) / 16, 2 * site.dcuBlock - DcuData(site, chans, i, d);
      && |vs| <= 64 && |vs| * size <= room && (|vs| < 64 ==> (|vs| + 1) * size > room)
      && forall j :: 0 <= j < |vs| ==> vs[j] == Vec(p.rm + j * size, p.offs + j * size * 16, size, Zero, Nowhere)
  {
    var d := chans[i - 1].dcu;
    assert chans[i - 1] in chans;
    TablesFound(site, chans, i);
    ClosingAdvances(site, chans, i);
    AsManyAsFit(site, Final(site, chans), d, 2 * site.dcuBlock - DcuData(site, chans, i, d), TestPointSize(site, d),
                TestPoints(site, Final(site, chans), d));
  }

  lemma AsManyAsFit(site: Site, f: Plan, d: nat, room: nat, size: nat, n: int)
    requires size == TestPointSize(site, d) > 0 && n == TestPoints(site, f, d)
    requires At(f.daqSize, d) == 2 * site.dcuBlock - room
    ensures 0 <= n <= 64 && n * size <= room && (n < 64 ==> (n + 1) * size > room)
  {
    var most := HowMany(site, f, d, room, size, n);
    MostThatFit(room, size, most);
    CappedFits(room, size, most, n);
  }

  lemma HowMany(site: Site, f: Plan, d: nat, room: nat, size: nat, n: int) returns (most: nat)
    requires size == TestPointSize(site, d) > 0 && n == TestPoints(site, f, d)
    requires At(f.daqSize, d) == 2 * site.dcuBlock - room
    ensures most == room / size && n == if most > 64 then 64 else most
  {
    most := Truncated(room, size);
  }

  lemma CappedFits(room: nat, size: nat, most: nat, n: int)
    requires most * size <= room < (most + 1) * size && n == if most > 64 then 64 else most
    ensures 0 <= n <= 64 && n * size <= room && (n < 64 ==> (n + 1) * size > room)
  {
    Product(n, most, size);
  }

  lemma MostThatFit(room: nat, size: nat, most: nat)
    requires size > 0 && most == room / size
    ensures most * size <= room < (most + 1) * size
  {
    assert room == most * size + room % size;
    assert (most + 1) * size == most * size + size;
  }

  // ---- the block --------------------------------------------------------------------------------

  /** The Myrinet DCUs of the first i channels. */
  function MyrinetDcus(site: Site, chans: seq<Channel>, i: nat): set<nat>
    requires i <= |chans|
  {
    set k | 0 <= k < i && chans[k].dcu in site.myrinet :: chans[k].dcu
  }

  /** The bytes of the copied channels of all other DCUs. */
  function OtherBytes(site: Site, chans: seq<Channel>, i: nat): int
    requires i <= |chans|
  {
    if i == 0 then 0
    else
      OtherBytes(site, chans, i - 1) +
      if chans[i - 1].alias || chans[i - 1].dcu in site.myrinet then 0 else chans[i - 1].bytes
  }

  /** Channels g to e - 1 are those of one DCU: it is new, and the last of its channels finishes it. */
  lemma RunIsNew(site: Site, chans: seq<Channel>, g: nat, e: nat)
    requires Run(chans, g, e)
    ensures chans[g].dcu !in MyrinetDcus(site, chans, g)
    ensures MyrinetDcus(site, chans, e) ==
            MyrinetDcus(site, chans, g) + (if chans[g].dcu in site.myrinet then {chans[g].dcu} else {})
  {
    var d := chans[g].dcu;
    forall x ensures x in MyrinetDcus(site, chans, e) <==>
      x in MyrinetDcus(site, chans, g) || (d in site.myrinet && x == d)
    {
      if x in MyrinetDcus(site, chans, e) {
        var k :| 0 <= k < e && chans[k].dcu in site.myrinet && chans[k].dcu == x;
        assert k >= g ==> x == d;
        assert k < g ==> x in MyrinetDcus(site, chans, g);
      }
      if x in MyrinetDcus(site, chans, g) {
        var k :| 0 <= k < g && chans[k].dcu in site.myrinet && chans[k].dcu == x;
        assert x in MyrinetDcus(site, chans, e);
      }
      if d in site.myrinet && x == d {
        assert chans[g].dcu == x;
      }
    }
  }

  lemma {:induction false} OthersInRun(site: Site, chans: seq<Channel>, g: nat, e: nat, k: nat)
    requires Run(chans, g, e) && g <= k <= e
    ensures chans[g].dcu in site.myrinet ==> OtherBytes(site, chans, k) == OtherBytes(site, chans, g)
    ensures chans[g].dcu !in site.myrinet && g < k ==>
      Planned(site, chans, k).offs ==
      Closed(site, chans, g).offs + OtherBytes(site, chans, k) - OtherBytes(site, chans, g)
    decreases k
  {
    if g < k {
      OffsStep(site, chans, g, e, k - 1);
      OthersInRun(site, chans, g, e, k - 1);
    }
  }

  /** What is laid out when a DCU has been finished. */
  lemma {:induction false} LaidOutSoFar(site: Site, chans: seq<Channel>, e: nat)
    requires Grouped(chans) && Admitted(site, chans) && e <= |chans|
    requires e == 0 || e == |chans| || chans[e - 1].dcu != chans[e].dcu
    ensures Closed(site, chans, e).offs ==
            OtherBytes(site, chans, e) + |MyrinetDcus(site, chans, e)| * (32 * site.dcuBlock)
    decreases e
  {
    if e == 0 {
      assert MyrinetDcus(site, chans, 0) == {};
    } else {
      var g := RunBefore(chans, e);
      LaidOutSoFar(site, chans, g);
      LaidOutRun(site, chans, g, e);
    }
  }

  lemma RunBefore(chans: seq<Channel>, e: nat) returns (g: nat)
    requires Grouped(chans) && 0 < e <= |chans| && (e == |chans| || chans[e - 1].dcu != chans[e].dcu)
    ensures Run(chans, g, e) && (g == 0 || chans[g - 1].dcu != chans[g].dcu)
  {
    var h;
    g, h := RunOf(chans, e - 1);
  }

  lemma LaidOutRun(site: Site, chans: seq<Channel>, g: nat, e: nat)
    requires Grouped(chans) && Admitted(site, chans) && Run(chans, g, e)
    ensures Closed(site, chans, e).offs - Closed(site, chans, g).offs ==
            OtherBytes(site, chans, e) - OtherBytes(site, chans, g) +
            (|MyrinetDcus(site, chans, e)| * (32 * site.dcuBlock) -
             |MyrinetDcus(site, chans, g)| * (32 * site.dcuBlock))
  {
    RunIsNew(site, chans, g, e);
    OthersInRun(site, chans, g, e, e);
    if chans[g].dcu in site.myrinet {
      assert MyrinetDcus(site, chans, e) == MyrinetDcus(site, chans, g) + {chans[g].dcu};
      RoomTaken(site, chans, g, e);
      OneRoomMore(MyrinetDcus(site, chans, g), MyrinetDcus(site, chans, e), chans[g].dcu, site.dcuBlock);
    } else {
      OtherDcuCloses(site, chans, g, e);
    }
  }

  lemma OtherDcuCloses(site: Site, chans: seq<Channel>, g: nat, e: nat)
    requires Run(chans, g, e) && chans[g].dcu !in site.myrinet
    ensures Closed(site, chans, e).offs == Planned(site, chans, e).offs
  {
    assert chans[e - 1].dcu == chans[g].dcu;
  }

  lemma OneRoomMore(before: set<nat>, after: set<nat>, d: nat, block: nat)
    requires after == before + {d} && d !in before
    ensures |after| * (32 * block) == |before| * (32 * block) + 32 * block
  {
    assert |after| == |before| + 1;
    assert (|before| + 1) * (32 * block) == |before| * (32 * block) + 32 * block;
  }

  /** The size of a block: two DCU blocks a sixteenth for every Myrinet DCU, the data of the other channels, and
      seventeen status words of four bytes for every channel of the table, aliases included. */
  lemma BlockSizeExact(site: Site, chans: seq<Channel>)
    requires Grouped(chans) && Admitted(site, chans)
    ensures BlockSize(site, chans) ==
            |MyrinetDcus(site, chans, |chans|)| * (32 * site.dcuBlock) + OtherBytes(site, chans, |chans|) +
            68 * |chans|
  {
    LaidOutSoFar(site, chans, |chans|);
  }
}
