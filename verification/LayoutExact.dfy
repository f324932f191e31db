/** When the layout is sound: for the channels as the sort leaves them, exactly when no Myrinet DCU has
    more data than the room set aside for it. */
module LayoutExact {
  import opened Layout
  import opened LayoutSound

  /** Aliases belong to test-point DCUs, which are not Myrinet DCUs, and every other channel has data that
      divides into sixteenths: it names a rate and a known data type. */
  ghost predicate Admitted(site: Site, chans: seq<Channel>) {
    && site.exc <= site.tp && site.myrinet !! site.tp
    && (forall c :: c in chans ==> if c.alias then c.dcu in site.tp else c.bytes > 0 && c.bytes % PARTS == 0)
  }

  /** Channels g to e - 1 are those of one DCU. */
  ghost predicate Run(chans: seq<Channel>, g: nat, e: nat) {
    && g < e <= |chans|
    && (forall k :: 0 <= k < |chans| ==> (chans[k].dcu == chans[g].dcu <==> g <= k < e))
  }

  lemma {:induction false} RunStart(chans: seq<Channel>, i: nat) returns (g: nat)
    requires Grouped(chans) && i < |chans|
    ensures g <= i && chans[g].dcu == chans[i].dcu
    ensures forall k :: 0 <= k < g ==> chans[k].dcu != chans[i].dcu
    decreases i
  {
    if k :| 0 <= k < i && chans[k].dcu == chans[i].dcu {
      g := RunStart(chans, k);
    } else {
      g := i;
    }
  }

  lemma {:induction false} RunEnd(chans: seq<Channel>, i: nat) returns (e: nat)
    requires Grouped(chans) && i < |chans|
    ensures i < e <= |chans| && chans[e - 1].dcu == chans[i].dcu
    ensures forall k :: e <= k < |chans| ==> chans[k].dcu != chans[i].dcu
    decreases |chans| - i
  {
    if k :| i < k < |chans| && chans[k].dcu == chans[i].dcu {
      e := RunEnd(chans, k);
    } else {
      e := i + 1;
    }
  }

  /** Every channel is in the run of its DCU. */
  lemma RunOf(chans: seq<Channel>, i: nat) returns (g: nat, e: nat)
    requires Grouped(chans) && i < |chans|
    ensures g <= i < e && Run(chans, g, e)
  {
    g := RunStart(chans, i);
    e := RunEnd(chans, i);
    forall k | g < k < e - 1 ensures chans[k].dcu == chans[g].dcu {
      GroupedAt(chans, g, k, e - 1);
    }
  }

  lemma {:induction false} NoMoreData(site: Site, chans: seq<Channel>, i: nat, j: nat, d: nat)
    requires i <= j <= |chans| && forall k :: i <= k < j ==> chans[k].dcu != d
    ensures DcuData(site, chans, j, d) == DcuData(site, chans, i, d)
    decreases j
  {
    if i < j {
      NoMoreData(site, chans, i, j - 1, d);
    }
  }

  /** The offset of the data area when channel k is about to be placed. */
  function Offs(site: Site, chans: seq<Channel>, k: nat): int
    requires k <= |chans|
  {
    Closed(site, chans, k).offs
  }

  /** Within a run the data area grows by the size of the channel placed. */
  lemma OffsStep(site: Site, chans: seq<Channel>, g: nat, e: nat, k: nat)
    requires Run(chans, g, e) && g <= k < e
    ensures Planned(site, chans, k + 1).offs == Offs(site, chans, k) + if chans[k].alias then 0 else chans[k].bytes
    ensures k + 1 < e ==> Offs(site, chans, k + 1) == Planned(site, chans, k + 1).offs
  {
  }

  lemma PlacedAt(site: Site, chans: seq<Channel>, j: nat)
    requires j < |chans| && !chans[j].alias
    ensures Final(site, chans).offset[j] == Offs(site, chans, j)
  {
    OffsetsKept(site, chans, j, |chans|);
  }

  /** The data of a DCU outside EXC takes at least its share of the block. */
  lemma {:induction false} RunData(site: Site, chans: seq<Channel>, g: nat, e: nat, k: nat)
    requires Sized(chans) && Run(chans, g, e) && g < k <= e && chans[g].dcu !in site.exc
    ensures Offs(site, chans, g) + PARTS * DcuData(site, chans, k, chans[g].dcu) <= Planned(site, chans, k).offs
    decreases k
  {
    var d := chans[g].dcu;
    OffsStep(site, chans, g, e, k - 1);
    assert chans[k - 1] in chans;
    if k == g + 1 {
      NoMoreData(site, chans, 0, g, d);
    } else {
      RunData(site, chans, g, e, k - 1);
    }
  }

  /** Sixteen bytes inside the extent of a run meet a copied channel of it. */
  lemma {:induction false} Meets(site: Site, chans: seq<Channel>, g: nat, e: nat, k: nat, x: int) returns (j: nat)
    requires Run(chans, g, e) && g < k <= e
    requires Offs(site, chans, g) <= x && x + PARTS <= Planned(site, chans, k).offs
    ensures g <= j < k && !chans[j].alias
    ensures Offs(site, chans, j) < x + PARTS && x < Offs(site, chans, j) + PARTS * Sixteenth(chans[j])
    decreases k
  {
    OffsStep(site, chans, g, e, k - 1);
    if x + PARTS <= Offs(site, chans, k - 1) {
      j := Meets(site, chans, g, e, k - 1, x);
    } else {
      j := k - 1;
    }
  }

  /** Aliases do not move the data area, not even where their DCU is finished. */
  lemma {:induction false} FirstCopied(site: Site, chans: seq<Channel>, e: nat) returns (m: nat)
    requires Admitted(site, chans) && e <= |chans|
    ensures e <= m <= |chans| && Offs(site, chans, m) == Offs(site, chans, e)
    ensures m < |chans| ==> !chans[m].alias && Sixteenth(chans[m]) >= 1
    decreases |chans| - e
  {
    if e < |chans| && chans[e].alias {
      m := FirstCopied(site, chans, e + 1);
      assert chans[e] in chans && Planned(site, chans, e + 1).cur == Some(chans[e].dcu);
      assert Planned(site, chans, e + 1).offs == Offs(site, chans, e);
    } else {
      assert e < |chans| ==> chans[e] in chans;
      m := e;
    }
  }

  /** Closing a DCU with too much data moves the data area back into its own run. */
  lemma ClosedBack(site: Site, chans: seq<Channel>, g: nat, e: nat)
    requires Grouped(chans) && Sized(chans)
    requires Run(chans, g, e) && chans[g].dcu in site.myrinet && chans[g].dcu !in site.exc
    requires DcuData(site, chans, |chans|, chans[g].dcu) > Room(site)
    ensures Offs(site, chans, g) <= Offs(site, chans, e) <= Planned(site, chans, e).offs - PARTS
  {
    var d := chans[g].dcu;
    assert chans[e - 1].dcu == d;
    NoMoreData(site, chans, e, |chans|, d);
    SizeSoFar(site, chans, e, d);
    RunData(site, chans, g, e, e);
    assert Finishes(chans, Some(d), e);
  }

  lemma CopiedAt(site: Site, chans: seq<Channel>, j: nat) returns (a: nat)
    requires RatesOk(site, chans) && j < |chans| && !chans[j].alias
    ensures a < |CopyPlan(site, chans)| && CopyPlan(site, chans)[a] == ChannelVec(site, chans, Final(site, chans), j)
  {
    ChannelIsPlanned(site, chans, j, |chans|);
    a :| 0 <= a < |CopyPlan(site, chans)| && CopyPlan(site, chans)[a] == ChannelVec(site, chans, Final(site, chans), j);
  }

  /** Two planned channels that share a byte of the block. */
  lemma SharedByte(site: Site, chans: seq<Channel>, j: nat, m: nat)
    requires RatesOk(site, chans) && j < m < |chans| && !chans[j].alias && !chans[m].alias
    requires Offs(site, chans, m) < Offs(site, chans, j) + PARTS * Sixteenth(chans[j])
    requires Offs(site, chans, j) < Offs(site, chans, m) + PARTS * Sixteenth(chans[m])
    ensures !Sound(site, chans)
  {
    PlacedAt(site, chans, j);
    PlacedAt(site, chans, m);
    var a := CopiedAt(site, chans, j);
    var z := CopiedAt(site, chans, m);
    assert a != z;
  }

  /** A planned channel that reaches into the status words. */
  lemma StatusHit(site: Site, chans: seq<Channel>, j: nat)
    requires RatesOk(site, chans) && j < |chans| && !chans[j].alias
    requires Offs(site, chans, j) + PARTS * Sixteenth(chans[j]) > Offs(site, chans, |chans|)
    ensures !Sound(site, chans)
  {
    PlacedAt(site, chans, j);
    var a := CopiedAt(site, chans, j);
  }

  /** ... so that what comes next overwrites a channel of it: the next channel, or the status words. */
  lemma OverfullOverlaps(site: Site, chans: seq<Channel>, g: nat, e: nat)
    requires Grouped(chans) && RatesOk(site, chans) && Admitted(site, chans) && Run(chans, g, e)
    requires chans[g].dcu in site.myrinet && DcuData(site, chans, |chans|, chans[g].dcu) > Room(site)
    ensures !Sound(site, chans)
  {
    ClosedBack(site, chans, g, e);
    var j := Meets(site, chans, g, e, e, Offs(site, chans, e));
    var m := FirstCopied(site, chans, e);
    if m < |chans| {
      SharedByte(site, chans, j, m);
    } else {
      StatusHit(site, chans, j);
    }
  }

  lemma OffsNext(site: Site, chans: seq<Channel>, k: nat)
    requires k + 1 < |chans| && chans[k].dcu == chans[k + 1].dcu && !chans[k].alias
    ensures Offs(site, chans, k + 1) == Offs(site, chans, k) + chans[k].bytes
  {
    assert Planned(site, chans, k + 1).cur == Some(chans[k].dcu);
  }

  /** A channel that names no rate has less than no data. Between two others of its DCU it makes the second
      overwrite the end of the first, whatever room there is. */
  lemma NoRateOverlaps(site: Site, chans: seq<Channel>, i: nat)
    requires RatesOk(site, chans) && 0 < i && i + 1 < |chans|
    requires chans[i - 1].dcu == chans[i].dcu == chans[i + 1].dcu
    requires !chans[i - 1].alias && !chans[i].alias && !chans[i + 1].alias
    requires chans[i - 1].bytes > 0 && chans[i - 1].bytes % PARTS == 0 && chans[i + 1].bytes >= PARTS
    requires 0 < -chans[i].bytes < PARTS
    ensures !Sound(site, chans)
  {
    OffsNext(site, chans, i - 1);
    OffsNext(site, chans, i);
    SharedByte(site, chans, i - 1, i + 1);
  }

  /** The layout is sound if and only if every Myrinet DCU fits its room. */
  lemma SoundExactly(site: Site, chans: seq<Channel>)
    requires Grouped(chans) && RatesOk(site, chans) && Admitted(site, chans)
    ensures Sound(site, chans) <==> Fits(site, chans)
  {
    if Fits(site, chans) {
      LayoutSoundness(site, chans);
    } else {
      var c :| c in chans && c.dcu in site.myrinet && DcuData(site, chans, |chans|, c.dcu) > Room(site);
      var i :| 0 <= i < |chans| && chans[i] == c;
      var g, e := RunOf(chans, i);
      OverfullOverlaps(site, chans, g, e);
    }
  }
}
