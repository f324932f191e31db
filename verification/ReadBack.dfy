/** Planner, scatter writer and framer together: what the framer reads of a channel is what sixteen
    sixteenths of a second brought for it. */
module ReadBack {
  import opened Layout
  import opened LayoutSound
  import opened Scatter
  import opened ScatterTheorem
  import opened ChannelTable
  import opened LayoutExact
  import Framer

  /** The framer and the planner work from the same table: the offsets the layout loop left in it, the
      numbers the renumbering left in it, and the same place for the status words. */
  ghost predicate Configured(cfg: Framer.Config, site: Site, t: seq<Entry>) {
    var chans := Channels(t);
    && Ready(site, chans) && Numbered(t)
    && cfg.statusPtr == StatusStart(site, chans) && |cfg.chans| == |t|
    && forall i {:trigger IsView(cfg.chans[i], site, t, i)} :: 0 <= i < |t| ==> IsView(cfg.chans[i], site, t, i)
  }

  /** The framer's view of row i. */
  ghost predicate IsView(c: Framer.Chan, site: Site, t: seq<Entry>, i: nat)
    requires i < |t|
  {
    c.offset == Final(site, Channels(t)).offset[i] && c.bytes == t[i].chan.bytes && c.seqNum == t[i].seqNum
  }

  lemma {:induction false} OffsetInBlock(site: Site, chans: seq<Channel>, i: nat)
    requires Ready(site, chans) && i < |chans| && !chans[i].alias
    ensures 0 <= Final(site, chans).offset[i]
    ensures Final(site, chans).offset[i] + chans[i].bytes <= StatusStart(site, chans)
    ensures 0 <= StatusStart(site, chans)
  {
    OffsetsKept(site, chans, i, |chans|);
    CopyPacked(site, chans, i);
    ClosingPacked(site, chans, i);
    OffsGrow(site, chans, i + 1, |chans|);
  }

  lemma {:induction false} OffsGrow(site: Site, chans: seq<Channel>, i: nat, j: nat)
    requires Ready(site, chans) && i <= j <= |chans|
    ensures Planned(site, chans, i).offs <= Closed(site, chans, j).offs
    decreases j
  {
    ClosingAdvances(site, chans, j);
    if i < j {
      OffsGrow(site, chans, i, j - 1);
    }
  }

  /** The vector of row i. */
  function PlannedVec(site: Site, t: seq<Entry>, i: nat): Vec
    requires i < |t|
  {
    ChannelVec(site, Channels(t), Final(site, Channels(t)), i)
  }

  function LowHalf(w: Word4): Framer.Half {
    [w[0], w[1]]
  }

  /** What stands at the start of a slice, and when it is the slice. */
  lemma HoldsInSlice(d: Bytes, at: nat, n: nat, b: Bytes)
    requires at + n <= |d| && Holds(d, at, b) && |b| == PARTS * (n / PARTS)
    ensures Holds(d[at..at + n], 0, b)
    ensures d[at..at + n] == b <==> n % PARTS == 0
  {
    var e := d[at..at + n];
    assert |b| <= |e|;
    forall k | 0 <= k < |b| ensures e[k] == b[k] {
      assert d[at + k] == b[k];
    }
    if n % PARTS == 0 {
      assert e == b;
    }
  }

  lemma HoldsLow(d: Bytes, at: nat, w: Word4)
    requires Holds(d, at, w)
    ensures at + 2 <= |d| && Framer.HalfAt(d, at) == LowHalf(w)
  {
    assert d[at] == w[0] && d[at + 1] == w[1];
  }

  /** The sixteen slices of a channel in a row fill its extent up to the last whole sixteenth; when 16
      divides its size they are the extent. The status the framer looks at is the low half of the OR
      of the sixteen status words. */
  lemma {:induction false} FramerReadsSlices(site: Site, t: seq<Entry>, i: nat, cfg: Framer.Config, s: Framer.Second,
                                             feeds: seq<Feed>, zeroBad: bool)
    requires Configured(cfg, site, t) && i < |t| && !t[i].chan.alias
    requires BlockSize(site, Channels(t)) <= |s.data|
    requires Complete(s.data, PlannedVec(site, t, i), feeds, zeroBad)
    ensures var c, v := cfg.chans[i], PlannedVec(site, t, i);
      && Framer.InBlock(cfg, c, s)
      && Holds(Framer.Extent(c, s), 0, Joined(v, feeds, PARTS, zeroBad))
      && (Framer.Extent(c, s) == Joined(v, feeds, PARTS, zeroBad) <==> c.bytes % PARTS == 0)
      && Framer.Status(cfg, c, s) == LowHalf(OrOf(v, feeds, PARTS))
  {
    OffsetInBlock(site, Channels(t), i);
    assert IsView(cfg.chans[i], site, t, i);
    var c, v := cfg.chans[i], PlannedVec(site, t, i);
    HoldsInSlice(s.data, c.offset, c.bytes, Joined(v, feeds, PARTS, zeroBad));
    HoldsLow(s.data, v.statusDest.at, OrOf(v, feeds, PARTS));
  }

  // ---- from the front ends to the frame ------------------------------------------------------------

  /** How a second came about: the sixteen feeds, and the states of its block while they were written. */
  datatype Origin = Origin(feeds: seq<Feed>, blocks: seq<Bytes>)

  ghost predicate CameFrom(s: Framer.Second, o: Origin, site: Site, chans: seq<Channel>, zeroBad: bool)
    requires RatesOk(site, chans)
  {
    && |o.feeds| == PARTS && |o.blocks| == PARTS + 1 && BlockSize(site, chans) <= |o.blocks[0]|
    && (forall p :: 0 <= p < PARTS ==> Suits(o.feeds[p], site, chans))
    && Filling(o.blocks, CopyPlan(site, chans), o.feeds, zeroBad)
    && s.data == o.blocks[PARTS]
  }

  ghost predicate AllCameFrom(stream: seq<Framer.Second>, origins: seq<Origin>, site: Site, chans: seq<Channel>,
                              zeroBad: bool)
    requires RatesOk(site, chans)
  {
    && |origins| == |stream|
    && forall b {:trigger CameFrom(stream[b], origins[b], site, chans, zeroBad)} ::
         0 <= b < |stream| ==> CameFrom(stream[b], origins[b], site, chans, zeroBad)
  }

  /** The slices that sixteen feeds brought for v stand at position at, one after the other. */
  ghost predicate Fed(d: Bytes, at: int, v: Vec, feeds: seq<Feed>, zeroBad: bool) {
    && |feeds| == PARTS && AllReadable(v, feeds)
    && |Joined(v, feeds, PARTS, zeroBad)| == PARTS * v.len
    && Holds(d, at, Joined(v, feeds, PARTS, zeroBad))
  }

  /** The n bytes at position at are the slices that sixteen feeds brought for v, one after the other. */
  ghost predicate AllOf(d: Bytes, at: int, n: int, v: Vec, feeds: seq<Feed>, zeroBad: bool) {
    && |feeds| == PARTS && AllReadable(v, feeds)
    && 0 <= at <= at + n <= |d| && d[at..at + n] == Joined(v, feeds, PARTS, zeroBad)
  }

  /** In every block of a stream the extent of v is what the sixteen feeds of its second brought. */
  ghost predicate AllShown(stream: seq<Framer.Second>, v: Vec, brought: seq<seq<Feed>>, zeroBad: bool) {
    |brought| == |stream| && forall b: nat :: b < |stream| ==> ShownIn(stream, b, v, brought, zeroBad)
  }

  ghost predicate ShownIn(stream: seq<Framer.Second>, b: nat, v: Vec, brought: seq<seq<Feed>>, zeroBad: bool)
    requires b < |stream| == |brought|
  {
    Fed(stream[b].data, v.dest, v, brought[b], zeroBad)
  }

  /** What the framer copies of channel c from block s is all that sixteen feeds brought for v. */
  ghost predicate ExtentIs(cfg: Framer.Config, c: Framer.Chan, s: Framer.Second, v: Vec, feeds: seq<Feed>,
                           zeroBad: bool) {
    && |feeds| == PARTS && AllReadable(v, feeds)
    && (Framer.InBlock(cfg, c, s) ==> Framer.Extent(c, s) == Joined(v, feeds, PARTS, zeroBad))
  }

  ghost predicate AllExtents(cfg: Framer.Config, c: Framer.Chan, stream: seq<Framer.Second>, v: Vec,
                             brought: seq<seq<Feed>>, zeroBad: bool) {
    && |brought| == |stream|
    && forall b {:trigger ExtentIs(cfg, c, stream[b], v, brought[b], zeroBad)} ::
         0 <= b < |stream| ==> ExtentIs(cfg, c, stream[b], v, brought[b], zeroBad)
  }

  lemma RowOf(cfg: Framer.Config, site: Site, t: seq<Entry>, i: nat)
    requires Configured(cfg, site, t) && Admitted(site, Channels(t)) && i < |t| && !t[i].chan.alias
    ensures cfg.chans[i].bytes == t[i].chan.bytes > 0 && t[i].chan.bytes % PARTS == 0
    ensures cfg.chans[i].offset == PlannedVec(site, t, i).dest
  {
    assert IsView(cfg.chans[i], site, t, i) && Channels(t)[i] in Channels(t);
  }

  lemma ExtentIsFed(cfg: Framer.Config, site: Site, t: seq<Entry>, s: Framer.Second, i: nat, feeds: seq<Feed>,
                    zeroBad: bool)
    requires Configured(cfg, site, t) && Admitted(site, Channels(t)) && i < |t| && !t[i].chan.alias
    requires Fed(s.data, PlannedVec(site, t, i).dest, PlannedVec(site, t, i), feeds, zeroBad)
    ensures ExtentIs(cfg, cfg.chans[i], s, PlannedVec(site, t, i), feeds, zeroBad)
  {
    RowOf(cfg, site, t, i);
    if Framer.InBlock(cfg, cfg.chans[i], s) {
      HoldsInSlice(s.data, cfg.chans[i].offset, cfg.chans[i].bytes,
                   Joined(PlannedVec(site, t, i), feeds, PARTS, zeroBad));
    }
  }

  /** Second k of vector j of a frame, n bytes a second, is of the second that block b of the stream holds and
      is all that the sixteen feeds of that block brought for v, slice after slice. */
  ghost predicate SecondIs(frame: Framer.Frame, j: nat, k: nat, n: nat, stream: seq<Framer.Second>, b: nat, v: Vec,
                           brought: seq<seq<Feed>>, zeroBad: bool) {
    && j < |frame.vectors| && b < |stream| == |brought| && stream[b].gps == frame.gps + k
    && AllOf(frame.vectors[j], k * n, n, v, brought[b], zeroBad)
  }

  lemma CopiedIs(d: Bytes, at: int, n: nat, cfg: Framer.Config, c: Framer.Chan, s: Framer.Second, v: Vec,
                 feeds: seq<Feed>, zeroBad: bool)
    requires ExtentIs(cfg, c, s, v, feeds, zeroBad) && Framer.InBlock(cfg, c, s) && n == c.bytes
    requires Holds(d, at, Framer.Extent(c, s))
    ensures AllOf(d, at, n, v, feeds, zeroBad)
  {
    HoldsIsSlice(d, at, Framer.Extent(c, s));
  }

  lemma FrameOfExtents(cfg: Framer.Config, stream: seq<Framer.Second>, v: Vec, brought: seq<seq<Feed>>,
                       zeroBad: bool, start: nat, frames: seq<Framer.Frame>, f: nat, k: nat, j: nat, c: Framer.Chan)
    requires Framer.Usable(cfg) && Framer.AllShaped(cfg, stream) && Framer.Consecutive(stream)
    requires Framer.FramesFrom(cfg, stream, start, frames)
    requires f < |frames| && k < cfg.blocksPerFrame && j < |Framer.AllSelected(cfg)| && Framer.AllSelected(cfg)[j] == c
    requires AllExtents(cfg, c, stream, v, brought, zeroBad)
    ensures |frames[f].vectors| == |Framer.AllSelected(cfg)|
    ensures SecondIs(frames[f], j, k, c.bytes, stream, Framer.FrameStart(cfg, start, f) + k, v, brought, zeroBad)
  {
    var b, at := Framer.FrameStart(cfg, start, f) + k, k * c.bytes;
    Framer.ContentOf(cfg, stream, start, frames, f, k, j, c, b, at);
    assert ExtentIs(cfg, c, stream[b], v, brought[b], zeroBad);
    CopiedIs(frames[f].vectors[j], at, c.bytes, cfg, c, stream[b], v, brought[b], zeroBad);
  }

  lemma ExtentsAreFed(cfg: Framer.Config, site: Site, t: seq<Entry>, stream: seq<Framer.Second>,
                      brought: seq<seq<Feed>>, zeroBad: bool, i: nat)
    requires Configured(cfg, site, t) && Admitted(site, Channels(t)) && i < |t| && !t[i].chan.alias
    requires AllShown(stream, PlannedVec(site, t, i), brought, zeroBad)
    ensures AllExtents(cfg, cfg.chans[i], stream, PlannedVec(site, t, i), brought, zeroBad)
  {
    forall b: nat | b < |stream|
      ensures ExtentIs(cfg, cfg.chans[i], stream[b], PlannedVec(site, t, i), brought[b], zeroBad)
    {
      assert ShownIn(stream, b, PlannedVec(site, t, i), brought, zeroBad);
      ExtentIsFed(cfg, site, t, stream[b], i, brought[b], zeroBad);
    }
  }

  /** From the blocks to the frame. */
  lemma FrameOfStream(cfg: Framer.Config, site: Site, t: seq<Entry>, stream: seq<Framer.Second>,
                      brought: seq<seq<Feed>>, zeroBad: bool, start: nat, frames: seq<Framer.Frame>,
                      f: nat, k: nat, i: nat, j: nat)
    requires Framer.Usable(cfg) && Configured(cfg, site, t) && Admitted(site, Channels(t))
    requires i < |t| && !t[i].chan.alias && AllShown(stream, PlannedVec(site, t, i), brought, zeroBad)
    requires Framer.AllShaped(cfg, stream) && Framer.Consecutive(stream)
    requires Framer.FramesFrom(cfg, stream, start, frames)
    requires f < |frames| && k < cfg.blocksPerFrame && j < |Framer.AllRows(cfg)| && Framer.AllRows(cfg)[j] == i
    ensures |frames[f].vectors| == |Framer.AllRows(cfg)| && t[i].chan.bytes > 0
    ensures SecondIs(frames[f], j, k, t[i].chan.bytes, stream, Framer.FrameStart(cfg, start, f) + k,
                     PlannedVec(site, t, i), brought, zeroBad)
  {
    RowOf(cfg, site, t, i);
    Framer.RowSelected(cfg, j);
    ExtentsAreFed(cfg, site, t, stream, brought, zeroBad, i);
    FrameOfExtents(cfg, stream, PlannedVec(site, t, i), brought, zeroBad, start, frames, f, k, j, cfg.chans[i]);
  }

  /** What each second brought. */
  function FeedsOfAll(origins: seq<Origin>): (r: seq<seq<Feed>>)
    ensures |r| == |origins| && forall b :: 0 <= b < |r| ==> r[b] == origins[b].feeds
  {
    seq(|origins|, b requires 0 <= b < |origins| => origins[b].feeds)
  }

  lemma StreamIsFed(site: Site, t: seq<Entry>, stream: seq<Framer.Second>, origins: seq<Origin>, zeroBad: bool, i: nat)
    requires Ready(site, Channels(t)) && i < |t| && !t[i].chan.alias
    requires AllCameFrom(stream, origins, site, Channels(t), zeroBad)
    ensures AllShown(stream, PlannedVec(site, t, i), FeedsOfAll(origins), zeroBad)
  {
    forall b: nat | b < |stream| ensures ShownIn(stream, b, PlannedVec(site, t, i), FeedsOfAll(origins), zeroBad) {
      assert CameFrom(stream[b], origins[b], site, Channels(t), zeroBad);
      ChannelGathered(site, Channels(t), i, origins[b].blocks, origins[b].feeds, zeroBad);
    }
  }

  /** Planner, writer and framer composed: second k of channel i in frame f is what the sixteen calls of
      the writer for that second brought. */
  lemma FrameIsWhatWasFed(cfg: Framer.Config, site: Site, t: seq<Entry>, stream: seq<Framer.Second>,
                          origins: seq<Origin>, zeroBad: bool, start: nat, frames: seq<Framer.Frame>,
                          f: nat, k: nat, i: nat, j: nat)
    requires Framer.Usable(cfg) && Configured(cfg, site, t) && Admitted(site, Channels(t))
    requires AllCameFrom(stream, origins, site, Channels(t), zeroBad)
    requires Framer.AllShaped(cfg, stream) && Framer.Consecutive(stream)
    requires Framer.FramesFrom(cfg, stream, start, frames)
    requires f < |frames| && k < cfg.blocksPerFrame && j < |Framer.AllRows(cfg)|
    requires i < |t| && !t[i].chan.alias && Framer.AllRows(cfg)[j] == i
    ensures |frames[f].vectors| == |Framer.AllRows(cfg)| && t[i].chan.bytes > 0
    ensures SecondIs(frames[f], j, k, t[i].chan.bytes, stream, Framer.FrameStart(cfg, start, f) + k,
                     PlannedVec(site, t, i), FeedsOfAll(origins), zeroBad)
  {
    StreamIsFed(site, t, stream, origins, zeroBad, i);
    FrameOfStream(cfg, site, t, stream, FeedsOfAll(origins), zeroBad, start, frames, f, k, i, j);
  }

  /** One second of one channel, as the framer finds it. */
  lemma SecondCameFrom(cfg: Framer.Config, site: Site, t: seq<Entry>, s: Framer.Second, o: Origin, i: nat,
                       zeroBad: bool)
    requires Configured(cfg, site, t) && i < |t| && !t[i].chan.alias && CameFrom(s, o, site, Channels(t), zeroBad)
    ensures var c := cfg.chans[i];
      Framer.InBlock(cfg, c, s) && (Framer.Status(cfg, c, s) != Framer.CLEAR <==> Flagged(site, t, i, o))
  {
    ChannelGathered(site, Channels(t), i, o.blocks, o.feeds, zeroBad);
    FramerReadsSlices(site, t, i, cfg, s, o.feeds, zeroBad);
    FlaggedIs(site, t, i, o);
  }

  /** Byte b of the status word that a feed brings for row i is set: of the word in front of the data for an EXC
      DCU, never for another test-point DCU, and otherwise of the status of the DCU. */
  ghost predicate StatusByte(site: Site, t: seq<Entry>, i: nat, feed: Feed, b: nat)
    requires i < |t| && b < 4
  {
    var d, src := t[i].chan.dcu, Final(site, Channels(t)).rmOffset[i];
    if d in site.exc then 4 <= src <= |feed.move| && feed.move[src - 4 + b] != NUL
    else d !in site.tp && d in feed.status && feed.status[d][b] != NUL
  }

  lemma StatusByteIs(site: Site, t: seq<Entry>, i: nat, feed: Feed, b: nat)
    requires i < |t| && b < 4 && Readable(PlannedVec(site, t, i), feed)
    ensures StatusIn(feed, PlannedVec(site, t, i).status)[b] != NUL <==> StatusByte(site, t, i, feed, b)
  {
  }

  /** An OR is zero only where everything is. */
  lemma OrIsNul(x: Byte, y: Byte)
    ensures Or(x, y) == NUL <==> x == NUL && y == NUL
  {
    assert Or(NUL, NUL) == NUL;
    if Or(x, y) == NUL {
      forall i | 0 <= i < 8 ensures !x[i] && !y[i] {
        assert !Or(x, y)[i];
      }
    }
  }

  ghost predicate WordByte(v: Vec, feed: Feed, b: nat)
    requires Readable(v, feed) && b < 4
  {
    StatusIn(feed, v.status)[b] != NUL
  }

  lemma {:induction false} OrByte(v: Vec, feeds: seq<Feed>, n: nat, b: nat)
    requires 0 < n <= |feeds| && AllReadable(v, feeds) && b < 4
    ensures OrOf(v, feeds, n)[b] != NUL <==> exists p :: 0 <= p < n && WordByte(v, feeds[p], b)
  {
    assert Readable(v, feeds[n - 1]);
    if n == 1 {
      assert OrOf(v, feeds, n)[b] != NUL <==> WordByte(v, feeds[0], b);
    } else {
      OrByte(v, feeds, n - 1, b);
      OrIsNul(OrOf(v, feeds, n - 1)[b], StatusIn(feeds[n - 1], v.status)[b]);
      assert OrOf(v, feeds, n)[b] != NUL <==> OrOf(v, feeds, n - 1)[b] != NUL || WordByte(v, feeds[n - 1], b);
    }
  }

  /** A feed brings a status word for row i with something in its low half. */
  ghost predicate LowSet(site: Site, t: seq<Entry>, i: nat, feed: Feed)
    requires i < |t|
  {
    StatusByte(site, t, i, feed, 0) || StatusByte(site, t, i, feed, 1)
  }

  /** ... in one of the sixteenths of a second. */
  ghost predicate Flagged(site: Site, t: seq<Entry>, i: nat, o: Origin)
    requires i < |t|
  {
    exists p :: 0 <= p < |o.feeds| && LowSet(site, t, i, o.feeds[p])
  }

  lemma FlaggedIs(site: Site, t: seq<Entry>, i: nat, o: Origin)
    requires i < |t| && |o.feeds| == PARTS && AllReadable(PlannedVec(site, t, i), o.feeds)
    ensures LowHalf(OrOf(PlannedVec(site, t, i), o.feeds, PARTS)) != Framer.CLEAR <==> Flagged(site, t, i, o)
  {
    var v := PlannedVec(site, t, i);
    OrByte(v, o.feeds, PARTS, 0);
    OrByte(v, o.feeds, PARTS, 1);
    forall p | 0 <= p < PARTS
      ensures LowSet(site, t, i, o.feeds[p]) <==> WordByte(v, o.feeds[p], 0) || WordByte(v, o.feeds[p], 1)
    {
      StatusByteIs(site, t, i, o.feeds[p], 0);
      StatusByteIs(site, t, i, o.feeds[p], 1);
    }
  }

  /** ... and its DataValid is set exactly when a status word fed in one of the frame's seconds has
      something in its low half. */
  lemma FrameFlagIsWhatWasFed(cfg: Framer.Config, site: Site, t: seq<Entry>, stream: seq<Framer.Second>,
                              origins: seq<Origin>, zeroBad: bool, start: nat, frames: seq<Framer.Frame>,
                              f: nat, i: nat, j: nat)
    requires Framer.Usable(cfg) && Configured(cfg, site, t) && AllCameFrom(stream, origins, site, Channels(t), zeroBad)
    requires Framer.AllShaped(cfg, stream) && Framer.FramesFrom(cfg, stream, start, frames)
    requires f < |frames| && j < |Framer.AllRows(cfg)|
    requires i < |t| && !t[i].chan.alias && Framer.AllRows(cfg)[j] == i
    ensures |frames[f].valid| == |Framer.AllRows(cfg)|
    ensures frames[f].valid[j] != Framer.CLEAR <==>
      exists b :: Framer.FrameStart(cfg, start, f) <= b < Framer.FrameStart(cfg, start, f) + cfg.blocksPerFrame &&
        b < |origins| && Flagged(site, t, i, origins[b])
  {
    var at, c := Framer.FrameStart(cfg, start, f), cfg.chans[i];
    Framer.RowSelected(cfg, j);
    Framer.FrameValid(cfg, stream, start, frames, f, j);
    forall b | at <= b < at + cfg.blocksPerFrame && b < |stream|
      ensures Flagged(site, t, i, origins[b]) <==> Framer.Marked(cfg, c, stream[b])
    {
      assert CameFrom(stream[b], origins[b], site, Channels(t), zeroBad);
      SecondCameFrom(cfg, site, t, stream[b], origins[b], i, zeroBad);
    }
  }

  /** The precondition of the framer is met: every copied channel, and its status words, lie in the block. */
  lemma LayoutShapes(cfg: Framer.Config, site: Site, t: seq<Entry>, s: Framer.Second)
    requires Configured(cfg, site, t) && BlockSize(site, Channels(t)) <= |s.data|
    requires forall e :: e in t && e.chan.alias ==> e.chan.bytes <= |s.data|
    ensures Framer.Shaped(cfg, s)
  {
    var chans := Channels(t);
    forall c | c in cfg.chans ensures Framer.InBlock(cfg, c, s) {
      var i :| 0 <= i < |t| && cfg.chans[i] == c;
      assert IsView(c, site, t, i) && t[i] in t;
      if chans[i].alias {
        OffsetsKept(site, chans, i, |chans|);
      } else {
        OffsetInBlock(site, chans, i);
      }
    }
  }
}
