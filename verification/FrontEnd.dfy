/** From the front ends to a frame byte by byte and sample by sample: where every byte of a frame comes from, told
    without the copy plan. */
module FrontEnd {
  import opened Layout
  import opened LayoutExact
  import opened LayoutSound
  import opened Scatter
  import opened ScatterTheorem
  import opened ChannelTable
  import opened ReadBack
  import opened DataPath
  import opened ChannelConfig
  import Framer
  import P = CircProtocol

  /** A feed brings bad data for row i: some byte of the status word is set. */
  ghost predicate Bad(site: Site, t: seq<Entry>, i: nat, feed: Feed)
    requires i < |t|
  {
    exists b :: 0 <= b < 4 && StatusByte(site, t, i, feed, b)
  }

  lemma BadIs(site: Site, t: seq<Entry>, i: nat, feed: Feed)
    requires i < |t| && Readable(PlannedVec(site, t, i), feed)
    ensures IsSet(StatusIn(feed, PlannedVec(site, t, i).status)) <==> Bad(site, t, i, feed)
  {
    var w := StatusIn(feed, PlannedVec(site, t, i).status);
    forall b | 0 <= b < 4 ensures w[b] != NUL <==> StatusByte(site, t, i, feed, b) {
      StatusByteIs(site, t, i, feed, b);
    }
  }

  /** Where the data of row i starts in the move buffer. */
  function Source(site: Site, t: seq<Entry>, i: nat): int
    requires i < |t|
  {
    Final(site, Channels(t)).rmOffset[i]
  }

  /** Byte `at` is byte x of what a feed brought for row i, or zero where bad data is zeroed. */
  ghost predicate ByteFrom(d: Bytes, at: int, site: Site, t: seq<Entry>, i: nat, feed: Feed, zeroBad: bool, x: int)
    requires i < |t|
  {
    && 0 <= at < |d| && 0 <= Source(site, t, i) + x < |feed.move|
    && d[at] == if zeroBad && Bad(site, t, i, feed) then NUL else feed.move[Source(site, t, i) + x]
  }

  /** Byte x of sixteenth p of the n bytes at position at. */
  ghost predicate ByteAt(d: Bytes, at: int, n: int, site: Site, t: seq<Entry>, i: nat, feeds: seq<Feed>, zeroBad: bool,
                         p: int, x: int)
    requires i < |t|
  {
    0 <= p < |feeds| && ByteFrom(d, at + (n / PARTS * p + x), site, t, i, feeds[p], zeroBad, x)
  }

  /** Second k of vector j, n bytes long: byte x of its sixteenth p is byte x of what the p-th feed of the second
      brought for row i, and zero where bad data is zeroed and the feed's status word for the row is set. */
  ghost predicate SecondBytes(frame: Framer.Frame, j: nat, k: nat, n: int, site: Site, t: seq<Entry>, i: nat,
                              brought: seq<seq<Feed>>, b: nat, zeroBad: bool)
    requires i < |t|
  {
    && j < |frame.vectors| && b < |brought| && n > 0 && n % PARTS == 0
    && forall p, x {:trigger ByteAt(frame.vectors[j], k * n, n, site, t, i, brought[b], zeroBad, p, x)} ::
         0 <= p < PARTS && 0 <= x < n / PARTS ==>
         ByteAt(frame.vectors[j], k * n, n, site, t, i, brought[b], zeroBad, p, x)
  }

  lemma ByteOfSecond(site: Site, t: seq<Entry>, i: nat, d: Bytes, at: int, n: int, feeds: seq<Feed>, zeroBad: bool,
                     p: nat, x: nat)
    requires i < |t| && n == t[i].chan.bytes > 0 && n % PARTS == 0
    requires AllOf(d, at, n, PlannedVec(site, t, i), feeds, zeroBad) && p < PARTS && x < n / PARTS
    ensures ByteAt(d, at, n, site, t, i, feeds, zeroBad, p, x)
  {
    ByteOfVec(d, at, n, PlannedVec(site, t, i), feeds, zeroBad, p, x);
    BadIs(site, t, i, feeds[p]);
  }

  lemma ByteOfVec(d: Bytes, at: int, n: int, v: Vec, feeds: seq<Feed>, zeroBad: bool, p: nat, x: nat)
    requires AllOf(d, at, n, v, feeds, zeroBad) && p < PARTS && x < v.len
    ensures 0 <= at + (v.len * p + x) < |d| && Readable(v, feeds[p])
    ensures d[at + (v.len * p + x)] ==
            if zeroBad && IsSet(StatusIn(feeds[p], v.status)) then NUL else feeds[p].move[v.src + x]
  {
    JoinedByte(v, feeds, PARTS, zeroBad, p, x);
    SliceAt(d, at, n, v.len * p + x);
  }

  lemma SliceAt(d: Bytes, at: int, n: int, q: int)
    requires 0 <= at <= at + n <= |d| && 0 <= q < n
    ensures d[at..at + n][q] == d[at + q]
  {
  }

  lemma BytesOfSecond(frame: Framer.Frame, j: nat, k: nat, n: int, stream: seq<Framer.Second>, b: nat, site: Site,
                      t: seq<Entry>, i: nat, brought: seq<seq<Feed>>, zeroBad: bool)
    requires i < |t| && n == t[i].chan.bytes > 0 && n % PARTS == 0
    requires SecondIs(frame, j, k, n, stream, b, PlannedVec(site, t, i), brought, zeroBad)
    ensures SecondBytes(frame, j, k, n, site, t, i, brought, b, zeroBad)
  {
    forall p, x {:trigger ByteAt(frame.vectors[j], k * n, n, site, t, i, brought[b], zeroBad, p, x)} |
      0 <= p < PARTS && 0 <= x < n / PARTS
      ensures ByteAt(frame.vectors[j], k * n, n, site, t, i, brought[b], zeroBad, p, x)
    {
      ByteOfSecond(site, t, i, frame.vectors[j], k * n, n, brought[b], zeroBad, p, x);
    }
  }

  lemma BytesOfRow(cfg: Framer.Config, site: Site, t: seq<Entry>, i: nat, frame: Framer.Frame, j: nat, k: nat,
                   stream: seq<Framer.Second>, b: nat, brought: seq<seq<Feed>>, zeroBad: bool)
    requires Configured(cfg, site, t) && Admitted(site, Channels(t)) && i < |t| && !t[i].chan.alias
    requires SecondIs(frame, j, k, t[i].chan.bytes, stream, b, PlannedVec(site, t, i), brought, zeroBad)
    ensures SecondBytes(frame, j, k, t[i].chan.bytes, site, t, i, brought, b, zeroBad)
  {
    RowOf(cfg, site, t, i);
    BytesOfSecond(frame, j, k, t[i].chan.bytes, stream, b, site, t, i, brought, zeroBad);
  }

  /** Planner, writer and framer, byte for byte. */
  lemma FrameBytesFed(cfg: Framer.Config, site: Site, t: seq<Entry>, stream: seq<Framer.Second>,
                      origins: seq<Origin>, zeroBad: bool, start: nat, frames: seq<Framer.Frame>,
                      f: nat, k: nat, i: nat, j: nat)
    requires Framer.Usable(cfg) && Configured(cfg, site, t) && Admitted(site, Channels(t))
    requires AllCameFrom(stream, origins, site, Channels(t), zeroBad)
    requires Framer.AllShaped(cfg, stream) && Framer.Consecutive(stream)
    requires Framer.FramesFrom(cfg, stream, start, frames)
    requires f < |frames| && k < cfg.blocksPerFrame && j < |Framer.AllRows(cfg)|
    requires i < |t| && !t[i].chan.alias && Framer.AllRows(cfg)[j] == i
    ensures SecondBytes(frames[f], j, k, t[i].chan.bytes, site, t, i, FeedsOfAll(origins),
                        Framer.FrameStart(cfg, start, f) + k, zeroBad)
  {
    FrameIsWhatWasFed(cfg, site, t, stream, origins, zeroBad, start, frames, f, k, i, j);
    BytesOfRow(cfg, site, t, i, frames[f], j, k, stream, Framer.FrameStart(cfg, start, f) + k, FeedsOfAll(origins),
               zeroBad);
  }

  lemma FrameBytesOf(cfg: Framer.Config, site: Site, t: seq<Entry>, stream: seq<Framer.Second>, first: nat,
                     parts: seq<P.Part>, feeds: seq<Feed>, zeroBad: bool, start: nat, frames: seq<Framer.Frame>,
                     f: nat, k: nat, i: nat, j: nat)
    requires Framer.Usable(cfg) && Configured(cfg, site, t) && Admitted(site, Channels(t))
    requires StreamOf(stream, first, parts, CopyPlan(site, Channels(t)), feeds, zeroBad)
    requires Framer.AllShaped(cfg, stream) && Framer.Consecutive(stream)
    requires Framer.FramesFrom(cfg, stream, start, frames)
    requires f < |frames| && k < cfg.blocksPerFrame && j < |Framer.AllRows(cfg)|
    requires i < |t| && !t[i].chan.alias && Framer.AllRows(cfg)[j] == i
    ensures SecondBytes(frames[f], j, k, t[i].chan.bytes, site, t, i, FeedsFrom(feeds, first, |stream|),
                        Framer.FrameStart(cfg, start, f) + k, zeroBad)
  {
    FrameOfPut(cfg, site, t, stream, first, parts, feeds, zeroBad, start, frames, f, k, i, j);
    BytesOfRow(cfg, site, t, i, frames[f], j, k, stream, Framer.FrameStart(cfg, start, f) + k,
               FeedsFrom(feeds, first, |stream|), zeroBad);
  }

  /** The same through the circular buffer: the feeds are those whose parts were put as that block. */
  lemma FrameBytesPut(s: P.Sys, c: nat, feeds: seq<Feed>, zeroBad: bool,
                      cfg: Framer.Config, site: Site, t: seq<Entry>, stream: seq<Framer.Second>,
                      start: nat, frames: seq<Framer.Frame>, f: nat, k: nat, i: nat, j: nat)
    requires Framer.Usable(cfg) && Configured(cfg, site, t) && Admitted(site, Channels(t))
    requires TakenAsPut(s, c, CopyPlan(site, Channels(t)), feeds, stream, zeroBad) && stream != []
    requires Framer.AllShaped(cfg, stream) && Framer.Consecutive(stream)
    requires Framer.FramesFrom(cfg, stream, start, frames)
    requires f < |frames| && k < cfg.blocksPerFrame && j < |Framer.AllRows(cfg)|
    requires i < |t| && !t[i].chan.alias && Framer.AllRows(cfg)[j] == i
    ensures PARTS * (s.readers[c].origin + |stream|) <= |feeds|
    ensures SecondBytes(frames[f], j, k, t[i].chan.bytes, site, t, i,
                        FeedsFrom(feeds, s.readers[c].origin, |stream|), Framer.FrameStart(cfg, start, f) + k, zeroBad)
  {
    StreamIsPut(s, c, CopyPlan(site, Channels(t)), feeds, stream, zeroBad);
    FrameBytesOf(cfg, site, t, stream, s.readers[c].origin, s.parts, feeds, zeroBad, start, frames, f, k, i, j);
  }

  // ---- samples ----------------------------------------------------------------------------------

  /** Where byte y of sample q is in a second of `rate` samples of `size` bytes: samples do not straddle sixteenths. */
  lemma SamplePlace(rate: nat, size: nat, q: nat, y: nat) returns (p: nat, x: nat)
    requires rate > 0 && rate % PARTS == 0 && q < rate && y < size
    ensures rate / PARTS > 0 && p == q / (rate / PARTS) < PARTS && x == (q % (rate / PARTS)) * size + y
    ensures (rate * size) % PARTS == 0 && x < rate * size / PARTS
    ensures rate * size / PARTS * p + x == q * size + y
  {
    var m := rate / PARTS;
    p, x := q / m, (q % m) * size + y;
    SizeOfPart(rate, size, m);
    assert q == p * m + q % m;
    if p >= PARTS {
      Product(PARTS, p, m);
    }
    Product(q % m + 1, m, size);
    assert (q % m + 1) * size == (q % m) * size + size;
    Regrouped(p, m, size, q % m);
  }

  lemma SizeOfPart(rate: nat, size: nat, m: nat)
    requires rate == PARTS * m
    ensures (rate * size) % PARTS == 0 && rate * size / PARTS == m * size
  {
    assert rate * size == PARTS * (m * size);
  }

  lemma Regrouped(p: nat, m: nat, size: nat, r: nat)
    ensures p * (m * size) + r * size == (p * m + r) * size
  {
  }

  lemma {:induction false} RateDivides(rate: int)
    requires Accepted(rate)
    ensures rate > 0 && rate % PARTS == 0
  {
    var k: nat :| rate == Words.Pow2(k);
    PowerDivides(k);
  }

  /** Byte y of sample q of second k of vector j is byte y of that sample as the feed of its sixteenth brought it for
      row i, or zero where bad data is zeroed and the status word says that it is bad. */
  ghost predicate SampleByte(frame: Framer.Frame, j: nat, k: nat, rate: int, size: int, site: Site, t: seq<Entry>,
                             i: nat, feeds: seq<Feed>, zeroBad: bool, q: int, y: int)
    requires i < |t| && j < |frame.vectors|
  {
    var m := rate / PARTS;
    && m > 0 && 0 <= q / m < |feeds|
    && ByteFrom(frame.vectors[j], k * (rate * size) + (q * size + y), site, t, i, feeds[q / m], zeroBad,
                (q % m) * size + y)
  }

  /** Second k of vector j is `rate` samples of `size` bytes. */
  ghost predicate SecondSamples(frame: Framer.Frame, j: nat, k: nat, rate: int, size: int, site: Site, t: seq<Entry>,
                                i: nat, brought: seq<seq<Feed>>, b: nat, zeroBad: bool)
    requires i < |t|
  {
    && j < |frame.vectors| && b < |brought|
    && forall q, y {:trigger SampleByte(frame, j, k, rate, size, site, t, i, brought[b], zeroBad, q, y)} ::
         0 <= q < rate && 0 <= y < size ==> SampleByte(frame, j, k, rate, size, site, t, i, brought[b], zeroBad, q, y)
  }

  lemma SampleOfSecond(frame: Framer.Frame, j: nat, k: nat, rate: nat, size: nat, site: Site, t: seq<Entry>, i: nat,
                       brought: seq<seq<Feed>>, b: nat, zeroBad: bool, q: nat, y: nat)
    requires i < |t| && rate > 0 && rate % PARTS == 0 && q < rate && y < size
    requires SecondBytes(frame, j, k, rate * size, site, t, i, brought, b, zeroBad)
    ensures SampleByte(frame, j, k, rate, size, site, t, i, brought[b], zeroBad, q, y)
  {
    var p, x := SamplePlace(rate, size, q, y);
    assert ByteAt(frame.vectors[j], k * (rate * size), rate * size, site, t, i, brought[b], zeroBad, p, x);
  }

  lemma SamplesOfSecond(frame: Framer.Frame, j: nat, k: nat, rate: nat, size: nat, site: Site, t: seq<Entry>, i: nat,
                        brought: seq<seq<Feed>>, b: nat, zeroBad: bool)
    requires i < |t| && rate > 0 && rate % PARTS == 0
    requires SecondBytes(frame, j, k, rate * size, site, t, i, brought, b, zeroBad)
    ensures SecondSamples(frame, j, k, rate, size, site, t, i, brought, b, zeroBad)
  {
    forall q, y {:trigger SampleByte(frame, j, k, rate, size, site, t, i, brought[b], zeroBad, q, y)} |
      0 <= q < rate && 0 <= y < size
      ensures SampleByte(frame, j, k, rate, size, site, t, i, brought[b], zeroBad, q, y)
    {
      SampleOfSecond(frame, j, k, rate, size, site, t, i, brought, b, zeroBad, q, y);
    }
  }

  /** A channel as its file describes it: `rate` samples a second of `size` bytes. */
  ghost predicate Described(site: Site, chan: Channel, param: Param, size: nat) {
    chan == Loaded(site, param) && Accepted(param.rate) && HasWidth(param.dataType, 8 * size)
  }

  lemma DescribedBytes(site: Site, chan: Channel, param: Param, size: nat)
    requires Described(site, chan, param, size)
    ensures param.rate > 0 && param.rate % PARTS == 0 && chan.bytes == param.rate * size
  {
    BytesExact(site, param);
    RateDivides(param.rate);
    InBits(param.rate, size, 8 * size);
  }

  lemma FrameSamplesOf(cfg: Framer.Config, site: Site, t: seq<Entry>, stream: seq<Framer.Second>, first: nat,
                       parts: seq<P.Part>, feeds: seq<Feed>, zeroBad: bool, start: nat, frames: seq<Framer.Frame>,
                       f: nat, k: nat, i: nat, j: nat, param: Param, size: nat)
    requires Framer.Usable(cfg) && Configured(cfg, site, t) && Admitted(site, Channels(t))
    requires StreamOf(stream, first, parts, CopyPlan(site, Channels(t)), feeds, zeroBad)
    requires Framer.AllShaped(cfg, stream) && Framer.Consecutive(stream)
    requires Framer.FramesFrom(cfg, stream, start, frames)
    requires f < |frames| && k < cfg.blocksPerFrame && j < |Framer.AllRows(cfg)|
    requires i < |t| && !t[i].chan.alias && Framer.AllRows(cfg)[j] == i && Described(site, t[i].chan, param, size)
    ensures SecondSamples(frames[f], j, k, param.rate, size, site, t, i, FeedsFrom(feeds, first, |stream|),
                          Framer.FrameStart(cfg, start, f) + k, zeroBad)
  {
    FrameBytesOf(cfg, site, t, stream, first, parts, feeds, zeroBad, start, frames, f, k, i, j);
    DescribedBytes(site, t[i].chan, param, size);
    SamplesOfSecond(frames[f], j, k, param.rate, size, site, t, i, FeedsFrom(feeds, first, |stream|),
                    Framer.FrameStart(cfg, start, f) + k, zeroBad);
  }

  /** The whole path for a channel as its file describes it: in a frame it has, for every second, exactly `rate`
      samples of the width of its data type, each as it was fed. */
  lemma FrameSamples(s: P.Sys, c: nat, feeds: seq<Feed>, zeroBad: bool,
                     cfg: Framer.Config, site: Site, t: seq<Entry>, stream: seq<Framer.Second>,
                     start: nat, frames: seq<Framer.Frame>, f: nat, k: nat, i: nat, j: nat, param: Param, size: nat)
    requires Framer.Usable(cfg) && Configured(cfg, site, t) && Admitted(site, Channels(t))
    requires TakenAsPut(s, c, CopyPlan(site, Channels(t)), feeds, stream, zeroBad) && stream != []
    requires Framer.AllShaped(cfg, stream) && Framer.Consecutive(stream)
    requires Framer.FramesFrom(cfg, stream, start, frames)
    requires f < |frames| && k < cfg.blocksPerFrame && j < |Framer.AllRows(cfg)|
    requires i < |t| && !t[i].chan.alias && Framer.AllRows(cfg)[j] == i && Described(site, t[i].chan, param, size)
    ensures PARTS * (s.readers[c].origin + |stream|) <= |feeds|
    ensures SecondSamples(frames[f], j, k, param.rate, size, site, t, i,
                          FeedsFrom(feeds, s.readers[c].origin, |stream|), Framer.FrameStart(cfg, start, f) + k,
                          zeroBad)
  {
    StreamIsPut(s, c, CopyPlan(site, Channels(t)), feeds, stream, zeroBad);
    FrameSamplesOf(cfg, site, t, stream, s.readers[c].origin, s.parts, feeds, zeroBad, start, frames, f, k, i, j,
                   param, size);
  }

  /** ... and no more: its vector in a frame is as long as the samples of all seconds of the frame. */
  lemma VectorOfSamples(cfg: Framer.Config, site: Site, t: seq<Entry>, stream: seq<Framer.Second>,
                        start: nat, frames: seq<Framer.Frame>, f: nat, i: nat, j: nat, param: Param, size: nat)
    requires Framer.Usable(cfg) && Configured(cfg, site, t) && Admitted(site, Channels(t))
    requires Framer.AllShaped(cfg, stream) && Framer.Consecutive(stream)
    requires Framer.FramesFrom(cfg, stream, start, frames) && f < |frames| && j < |Framer.AllRows(cfg)|
    requires i < |t| && !t[i].chan.alias && Framer.AllRows(cfg)[j] == i && Described(site, t[i].chan, param, size)
    ensures |frames[f].vectors| == |Framer.AllRows(cfg)|
    ensures |frames[f].vectors[j]| == cfg.blocksPerFrame * (param.rate * size)
  {
    DescribedBytes(site, t[i].chan, param, size);
    Framer.FrameHolds(cfg, stream, start, frames, f, 0, j);
    RowOf(cfg, site, t, i);
  }
}
