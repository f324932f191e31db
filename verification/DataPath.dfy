/** The buffer as a protocol, the scatter writer on bytes and the framer are one data path: a call of the
    writer is what the protocol calls filling a part, and what the framer reads are the published parts. */
module DataPath {
  import opened Layout
  import opened LayoutExact
  import opened LayoutSound
  import opened Scatter
  import opened ScatterTheorem
  import opened ChannelTable
  import opened ReadBack
  import Framer
  import S = CircState
  import P = CircProtocol
  import I = CircInvariant
  import T = CircTheorems
  import K = CircBlocks

  // ---- the bytes of a part ----------------------------------------------------------------------

  /** The extents of all vectors are inside a block of this size. */
  ghost predicate Spans(vs: seq<Vec>, size: int) {
    forall a :: 0 <= a < |vs| ==> SpanOk(vs[a], size)
  }

  ghost predicate SpanOk(v: Vec, size: int) {
    v.len >= 0 && 0 <= v.dest && v.dest + PARTS * v.len <= size
  }

  ghost predicate FeedReadable(vs: seq<Vec>, feed: Feed) {
    forall a :: 0 <= a < |vs| ==> Readable(vs[a], feed)
  }

  /** Part j of one vector in a block. */
  ghost function PartIn(d: Bytes, v: Vec, j: nat): (r: Bytes)
    requires SpanOk(v, |d|) && j < PARTS
    ensures |r| == v.len
  {
    PartInside(v, j, j);
    d[PartStart(v, j)..PartStart(v, j) + v.len]
  }

  /** Part j of the first n vectors in a block, vector after vector. */
  ghost function ReadPart(d: Bytes, vs: seq<Vec>, n: nat, j: nat): Bytes
    requires Spans(vs, |d|) && n <= |vs| && j < PARTS
  {
    if n == 0 then [] else
      assert SpanOk(vs[n - 1], |d|);
      ReadPart(d, vs, n - 1, j) + PartIn(d, vs[n - 1], j)
  }

  /** What a feed brings for the first n vectors. */
  ghost function Brought(vs: seq<Vec>, n: nat, feed: Feed, zeroBad: bool): Bytes
    requires FeedReadable(vs, feed) && n <= |vs|
  {
    if n == 0 then [] else
      assert Readable(vs[n - 1], feed);
      Brought(vs, n - 1, feed, zeroBad) + Slice(vs[n - 1], feed, zeroBad)
  }

  ghost predicate InPlace(d: Bytes, v: Vec, j: nat, feed: Feed, zeroBad: bool)
    requires Readable(v, feed)
  {
    Holds(d, PartStart(v, j), Slice(v, feed, zeroBad))
  }

  /** Part j of the first n vectors reads as what a feed brings. */
  ghost predicate IsBrought(d: Bytes, vs: seq<Vec>, n: nat, j: nat, feed: Feed, zeroBad: bool)
    requires Spans(vs, |d|) && n <= |vs| && j < PARTS && FeedReadable(vs, feed)
  {
    ReadPart(d, vs, n, j) == Brought(vs, n, feed, zeroBad)
  }

  /** The slices of the first n vectors are in place. */
  ghost predicate AllInPlace(d: Bytes, vs: seq<Vec>, n: nat, j: nat, feed: Feed, zeroBad: bool)
    requires n <= |vs| && FeedReadable(vs, feed)
  {
    forall a {:trigger InPlace(d, vs[a], j, feed, zeroBad)} :: 0 <= a < n ==> InPlace(d, vs[a], j, feed, zeroBad)
  }

  lemma PartInIs(d: Bytes, v: Vec, j: nat, feed: Feed, zeroBad: bool)
    requires SpanOk(v, |d|) && j < PARTS && Readable(v, feed)
    ensures PartIn(d, v, j) == Slice(v, feed, zeroBad) <==> InPlace(d, v, j, feed, zeroBad)
  {
    PartInside(v, j, j);
    var at, b := PartStart(v, j), Slice(v, feed, zeroBad);
    if PartIn(d, v, j) == b {
      forall i {:trigger d[i]} | at <= i < at + |b| ensures d[i] == b[i - at] {
        assert d[i] == PartIn(d, v, j)[i - at];
      }
    }
  }

  lemma {:induction false} SameLength(d: Bytes, vs: seq<Vec>, n: nat, j: nat, feed: Feed, zeroBad: bool)
    requires Spans(vs, |d|) && n <= |vs| && j < PARTS && FeedReadable(vs, feed)
    ensures |ReadPart(d, vs, n, j)| == |Brought(vs, n, feed, zeroBad)|
  {
    if n > 0 {
      assert SpanOk(vs[n - 1], |d|) && Readable(vs[n - 1], feed);
      SameLength(d, vs, n - 1, j, feed, zeroBad);
    }
  }

  lemma SameEnds(a: Bytes, b: Bytes, x: Bytes, y: Bytes)
    requires |a| == |b|
    ensures a + x == b + y <==> a == b && x == y
  {
    if a + x == b + y {
      assert a == (a + x)[..|a|] && x == (a + x)[|a|..] && b == (b + y)[..|b|] && y == (b + y)[|b|..];
    }
  }

  /** A part of the block is what a feed brought if and only if every vector has its slice in place. */
  lemma {:induction false} ReadPartIs(d: Bytes, vs: seq<Vec>, n: nat, j: nat, feed: Feed, zeroBad: bool)
    requires Spans(vs, |d|) && n <= |vs| && j < PARTS && FeedReadable(vs, feed)
    ensures IsBrought(d, vs, n, j, feed, zeroBad) <==> AllInPlace(d, vs, n, j, feed, zeroBad)
  {
    if n > 0 {
      ReadPartIs(d, vs, n - 1, j, feed, zeroBad);
      ReadPartStep(d, vs, n, j, feed, zeroBad);
    }
  }

  lemma ReadPartStep(d: Bytes, vs: seq<Vec>, n: nat, j: nat, feed: Feed, zeroBad: bool)
    requires Spans(vs, |d|) && 0 < n <= |vs| && j < PARTS && FeedReadable(vs, feed)
    requires IsBrought(d, vs, n - 1, j, feed, zeroBad) <==> AllInPlace(d, vs, n - 1, j, feed, zeroBad)
    ensures IsBrought(d, vs, n, j, feed, zeroBad) <==> AllInPlace(d, vs, n, j, feed, zeroBad)
  {
    ReadPartMore(d, vs, n, j, feed, zeroBad);
    AllInPlaceMore(d, vs, n, j, feed, zeroBad);
  }

  lemma AllInPlaceMore(d: Bytes, vs: seq<Vec>, n: nat, j: nat, feed: Feed, zeroBad: bool)
    requires 0 < n <= |vs| && FeedReadable(vs, feed) && Readable(vs[n - 1], feed)
    ensures AllInPlace(d, vs, n, j, feed, zeroBad) <==>
            AllInPlace(d, vs, n - 1, j, feed, zeroBad) && InPlace(d, vs[n - 1], j, feed, zeroBad)
  {
  }

  lemma ReadPartMore(d: Bytes, vs: seq<Vec>, n: nat, j: nat, feed: Feed, zeroBad: bool)
    requires Spans(vs, |d|) && 0 < n <= |vs| && j < PARTS && FeedReadable(vs, feed)
    ensures SpanOk(vs[n - 1], |d|) && Readable(vs[n - 1], feed)
    ensures IsBrought(d, vs, n, j, feed, zeroBad) <==>
            IsBrought(d, vs, n - 1, j, feed, zeroBad) && InPlace(d, vs[n - 1], j, feed, zeroBad)
  {
    var v := vs[n - 1];
    assert SpanOk(v, |d|) && Readable(v, feed);
    SameLength(d, vs, n - 1, j, feed, zeroBad);
    PartInIs(d, v, j, feed, zeroBad);
    SameEnds(ReadPart(d, vs, n - 1, j), Brought(vs, n - 1, feed, zeroBad), PartIn(d, v, j), Slice(v, feed, zeroBad));
  }

  lemma {:induction false} BroughtLength(vs: seq<Vec>, n: nat, feed: Feed, zeroBad: bool)
    requires FeedReadable(vs, feed) && n <= |vs|
    ensures |Brought(vs, n, feed, zeroBad)| == TotalLen(vs[..n])
  {
    if n > 0 {
      assert Readable(vs[n - 1], feed);
      BroughtLength(vs, n - 1, feed, zeroBad);
      assert vs[..n][..n - 1] == vs[..n - 1];
    }
  }

  // ---- a call of the writer fills a part ----------------------------------------------------------

  /** The sixteen parts of a block. */
  ghost function Slices(d: Bytes, vs: seq<Vec>): (r: seq<Bytes>)
    requires Spans(vs, |d|)
    ensures |r| == PARTS && forall j :: 0 <= j < PARTS ==> r[j] == ReadPart(d, vs, |vs|, j)
  {
    seq(PARTS, j requires 0 <= j < PARTS => ReadPart(d, vs, |vs|, j))
  }

  /** The copy plan can be written: what WriterFillsPart asks of the vectors. */
  lemma PlanSpans(site: Site, chans: seq<Channel>, part: nat, feed: Feed, size: nat)
    requires Ready(site, chans) && part < PARTS && Suits(feed, site, chans) && BlockSize(site, chans) <= size
    ensures Separate(CopyPlan(site, chans), StatusStart(site, chans), size) && StatusStart(site, chans) <= size
    ensures Possible(CopyPlan(site, chans), part, feed, size) && Spans(CopyPlan(site, chans), size)
  {
    PlanIsSafe(site, chans, part, feed, size);
  }

  /** A part of a vector that is not being written stays. */
  lemma OtherPartKept(d: Bytes, r: Bytes, vs: seq<Vec>, split: int, a: nat, j: nat, part: nat, feed: Feed,
                      zeroBad: bool)
    requires Separate(vs, split, |d|) && split <= |d| && j < PARTS && part < PARTS && j != part
    requires Possible(vs, part, feed, |d|) && a < |vs| && PartDone(d, r, vs, |vs|, part, feed, zeroBad)
    requires SpanOk(vs[a], |d|) && |r| == |d|
    ensures PartIn(r, vs[a], j) == PartIn(d, vs[a], j)
  {
    var v := vs[a];
    PartInside(v, j, part);
    PartInside(v, part, j);
    forall i | PartStart(v, j) <= i < PartStart(v, j) + v.len ensures r[i] == d[i] {
      forall b | 0 <= b < |vs| ensures !Touched(vs[b], part, i) {
        if b != a {
          Untouched(vs, split, |d|, a, b, part, i);
        }
      }
      assert Untouchable(vs, |vs|, part, i);
    }
  }

  lemma {:induction false} OtherSlicesKept(d: Bytes, r: Bytes, vs: seq<Vec>, split: int, n: nat, j: nat, part: nat,
                                           feed: Feed, zeroBad: bool)
    requires Separate(vs, split, |d|) && split <= |d| && j < PARTS && part < PARTS && j != part && n <= |vs|
    requires Possible(vs, part, feed, |d|) && PartDone(d, r, vs, |vs|, part, feed, zeroBad)
    requires Spans(vs, |d|) && |r| == |d|
    ensures ReadPart(r, vs, n, j) == ReadPart(d, vs, n, j)
  {
    if n > 0 {
      assert SpanOk(vs[n - 1], |d|);
      OtherSlicesKept(d, r, vs, split, n - 1, j, part, feed, zeroBad);
      OtherPartKept(d, r, vs, split, n - 1, j, part, feed, zeroBad);
    }
  }

  lemma SliceWritten(d: Bytes, r: Bytes, vs: seq<Vec>, part: nat, feed: Feed, zeroBad: bool)
    requires part < PARTS && Possible(vs, part, feed, |d|) && PartDone(d, r, vs, |vs|, part, feed, zeroBad)
    requires Spans(vs, |r|)
    ensures FeedReadable(vs, feed) && ReadPart(r, vs, |vs|, part) == Brought(vs, |vs|, feed, zeroBad)
  {
    forall a | 0 <= a < |vs| ensures Readable(vs[a], feed) && InPlace(r, vs[a], part, feed, zeroBad) {
      assert Stored(r, vs[a], part, feed, zeroBad);
    }
    ReadPartIs(r, vs, |vs|, part, feed, zeroBad);
  }

  /** One call of the writer on the bytes of a block is one filling of a part in the protocol: of the
      sixteen parts it replaces one, by what the feed brought. */
  lemma WriterFillsPart(d: Bytes, vs: seq<Vec>, split: int, part: nat, feed: Feed, zeroBad: bool,
                        c: S.Content, arg: S.PropArg, puts: nat)
    requires Separate(vs, split, |d|) && split <= |d| && part < PARTS && Possible(vs, part, feed, |d|)
    requires Spans(vs, |d|) && c.slices == Slices(d, vs) && |c.props16| == PARTS
    ensures FeedReadable(vs, feed)
    ensures var r, data := PutVecs(d, vs, |vs|, part, feed, zeroBad), Brought(vs, |vs|, feed, zeroBad);
      && S.FillPart(c, part, data, arg, puts).slices == Slices(r, vs)
      && |data| == TotalLen(vs)
  {
    var r := PutVecs(d, vs, |vs|, part, feed, zeroBad);
    LoopDoesPart(d, vs, split, part, feed, zeroBad);
    SliceWritten(d, r, vs, part, feed, zeroBad);
    BroughtLength(vs, |vs|, feed, zeroBad);
    assert vs[..|vs|] == vs;
    forall j | 0 <= j < PARTS && j != part ensures Slices(r, vs)[j] == Slices(d, vs)[j] {
      OtherSlicesKept(d, r, vs, split, |vs|, j, part, feed, zeroBad);
    }
    assert Slices(r, vs) == Slices(d, vs)[part := Brought(vs, |vs|, feed, zeroBad)];
  }

  // ---- from the published parts to the frame --------------------------------------------------------

  /** Every part put since the ring was fresh is what a feed brought for the planned vectors. */
  ghost predicate PartsBrought(s: P.Sys, vs: seq<Vec>, feeds: seq<Feed>, zeroBad: bool) {
    && |feeds| == |s.parts|
    && forall i {:trigger PartBrought(s, vs, feeds, i, zeroBad)} ::
         PARTS * I.Blocks(s) <= i < |s.parts| ==> PartBrought(s, vs, feeds, i, zeroBad)
  }

  ghost predicate PartBrought(s: P.Sys, vs: seq<Vec>, feeds: seq<Feed>, i: int, zeroBad: bool)
    requires |feeds| == |s.parts|
  {
    0 <= i < |s.parts| && FeedReadable(vs, feeds[i]) && s.parts[i].data == Brought(vs, |vs|, feeds[i], zeroBad)
  }

  /** The bytes d are those of a block that reads x. */
  ghost predicate Shows(d: Bytes, vs: seq<Vec>, x: S.Content) {
    Spans(vs, |d|) && x.slices == Slices(d, vs)
  }

  /** The feeds of the block at position p. */
  function FeedsOf(feeds: seq<Feed>, p: nat): seq<Feed>
    requires PARTS * p + PARTS <= |feeds|
  {
    feeds[PARTS * p..PARTS * p + PARTS]
  }

  /** Part j of the block at position p is the one that feed brought. */
  lemma LogBrought(s: P.Sys, vs: seq<Vec>, feeds: seq<Feed>, zeroBad: bool, p: nat, j: nat)
    requires T.Reachable(s) && s.byParts && PartsBrought(s, vs, feeds, zeroBad)
    requires I.Blocks(s) <= p < I.Whole(s) && j < PARTS
    ensures PARTS * p + PARTS <= |feeds| && p < |s.log| && |s.log[p].slices| == PARTS
    ensures FeedReadable(vs, FeedsOf(feeds, p)[j])
    ensures s.log[p].slices[j] == Brought(vs, |vs|, FeedsOf(feeds, p)[j], zeroBad)
  {
    T.LogIsParts(s, p, j);
    T.LogIsParts(s, p, PARTS - 1);
    assert T.BlockPart(s, p, j) && T.BlockPart(s, p, PARTS - 1);
    assert PartBrought(s, vs, feeds, PARTS * p + j, zeroBad);
  }

  /** Block x was put as sixteen parts, the first with these properties, that these feeds brought. */
  ghost predicate PutAs(x: S.Content, prop: S.Prop, vs: seq<Vec>, feeds: seq<Feed>, zeroBad: bool) {
    && |feeds| == PARTS == |x.slices| && x.prop == prop && x.bytes == PARTS * TotalLen(vs)
    && forall j {:trigger PartAs(x, vs, feeds, j, zeroBad)} :: 0 <= j < PARTS ==> PartAs(x, vs, feeds, j, zeroBad)
  }

  ghost predicate PartAs(x: S.Content, vs: seq<Vec>, feeds: seq<Feed>, j: int, zeroBad: bool) {
    && 0 <= j < |feeds| && j < |x.slices| && FeedReadable(vs, feeds[j])
    && x.slices[j] == Brought(vs, |vs|, feeds[j], zeroBad)
  }

  /** Sixteen parts of a feed each are sixteen times as many bytes as the plan has. */
  lemma {:induction false} SumBrought(slices: seq<Bytes>, vs: seq<Vec>, feeds: seq<Feed>, n: nat, zeroBad: bool)
    requires n <= |slices| && n <= |feeds|
    requires forall j :: 0 <= j < n ==> FeedReadable(vs, feeds[j]) && slices[j] == Brought(vs, |vs|, feeds[j], zeroBad)
    ensures K.SumTo(slices, n) == n * TotalLen(vs)
  {
    if n > 0 {
      SumBrought(slices, vs, feeds, n - 1, zeroBad);
      BroughtLength(vs, |vs|, feeds[n - 1], zeroBad);
      assert vs[..|vs|] == vs;
      assert n * TotalLen(vs) == (n - 1) * TotalLen(vs) + TotalLen(vs);
    }
  }

  lemma SizeOfBlock(x: S.Content, vs: seq<Vec>, feeds: seq<Feed>, zeroBad: bool)
    requires |feeds| == PARTS == |x.slices| && x.bytes == K.SumTo(x.slices, PARTS)
    requires forall j {:trigger PartAs(x, vs, feeds, j, zeroBad)} :: 0 <= j < PARTS ==> PartAs(x, vs, feeds, j, zeroBad)
    ensures x.bytes == PARTS * TotalLen(vs)
  {
    forall j | 0 <= j < PARTS
      ensures FeedReadable(vs, feeds[j]) && x.slices[j] == Brought(vs, |vs|, feeds[j], zeroBad)
    {
      assert PartAs(x, vs, feeds, j, zeroBad);
    }
    SumBrought(x.slices, vs, feeds, PARTS, zeroBad);
  }

  /** Every block stored is what was put: the sixteen feeds of its parts, the properties given with the first, and
      sixteen times the bytes of the plan. */
  lemma BlockWasPut(s: P.Sys, vs: seq<Vec>, feeds: seq<Feed>, zeroBad: bool, p: nat)
    requires T.Reachable(s) && s.byParts && PartsBrought(s, vs, feeds, zeroBad)
    requires I.Blocks(s) <= p < I.Whole(s)
    ensures PARTS * p + PARTS <= |feeds| == |s.parts| && p < |s.log|
    ensures PutAs(s.log[p], s.parts[PARTS * p].prop, vs, FeedsOf(feeds, p), zeroBad)
  {
    K.BlockReadsParts(s, p);
    LogBrought(s, vs, feeds, zeroBad, p, 0);
    forall j | 0 <= j < PARTS ensures PartAs(s.log[p], vs, FeedsOf(feeds, p), j, zeroBad) {
      LogBrought(s, vs, feeds, zeroBad, p, j);
    }
    SizeOfBlock(s.log[p], vs, FeedsOf(feeds, p), zeroBad);
  }

  /** In the bytes of that block the extent of a vector is its sixteen slices in a row. */
  lemma BlockShows(x: S.Content, prop: S.Prop, vs: seq<Vec>, feeds: seq<Feed>, zeroBad: bool, d: Bytes, v: Vec)
    requires PutAs(x, prop, vs, feeds, zeroBad) && Shows(d, vs, x) && v in vs
    ensures Fed(d, v.dest, v, feeds, zeroBad)
  {
    var a :| 0 <= a < |vs| && vs[a] == v;
    forall j | 0 <= j < PARTS ensures Readable(v, feeds[j]) && InPlace(d, v, j, feeds[j], zeroBad) {
      assert PartAs(x, vs, feeds, j, zeroBad);
      ReadPartIs(d, vs, |vs|, j, feeds[j], zeroBad);
      assert InPlace(d, vs[a], j, feeds[j], zeroBad);
    }
    assert SpanOk(v, |d|);
    PartStartIs(v, PARTS);
    InPlaceJoined(d, v, feeds, PARTS, zeroBad);
  }

  lemma {:induction false} InPlaceJoined(d: Bytes, v: Vec, feeds: seq<Feed>, n: nat, zeroBad: bool)
    requires AllReadable(v, feeds) && n <= |feeds| && 0 <= v.len && 0 <= v.dest <= |d|
    requires forall p :: 0 <= p < n ==> InPlace(d, v, p, feeds[p], zeroBad)
    ensures Holds(d, v.dest, Joined(v, feeds, n, zeroBad))
    ensures v.dest + |Joined(v, feeds, n, zeroBad)| == PartStart(v, n)
    decreases n
  {
    if n > 0 {
      InPlaceJoined(d, v, feeds, n - 1, zeroBad);
      assert InPlace(d, v, n - 1, feeds[n - 1], zeroBad);
    }
  }

  // ---- what a regular consumer takes ------------------------------------------------------------------

  /** What the framer reads of a block: its properties, its size and its bytes. */
  ghost predicate ReadsBlock(sec: Framer.Second, vs: seq<Vec>, x: S.Content) {
    && Shows(sec.data, vs, x) && sec.bytes == x.bytes
    && sec.gps == x.prop.gps && sec.gpsN == x.prop.gpsN && sec.run == x.prop.run && sec.cycle == x.prop.cycle
  }

  /** The framer, a regular consumer c, reads the blocks it takes: block b of its stream is the b-th. */
  ghost predicate ReadsTaken(s: P.Sys, c: nat, vs: seq<Vec>, stream: seq<Framer.Second>)
    requires P.WellSized(s) && c < S.MAX_CONSUMERS
  {
    && c in s.b.cmask && c !in s.b.cmask16 && |stream| <= |s.readers[c].taken|
    && forall b :: 0 <= b < |stream| ==> ReadsBlock(stream[b], vs, s.readers[c].taken[b])
  }

  /** What a regular consumer has read is a piece of the log. */
  ghost predicate TakenFrom(r: P.Reader, log: seq<S.Content>) {
    0 <= r.origin <= r.pos <= |log| && r.taken == log[r.origin..r.pos]
  }

  lemma TakenIsLog(s: P.Sys, c: nat)
    requires T.Reachable(s) && !P.Publishing(s.prod) && c < S.MAX_CONSUMERS && c in s.b.cmask && c !in s.b.cmask16
    ensures TakenFrom(s.readers[c], s.log) && I.Blocks(s) <= s.readers[c].origin && |s.log| == I.Whole(s)
  {
    T.LosslessFifo(s, c);
  }

  lemma ReadAt(r: P.Reader, log: seq<S.Content>, b: nat, sec: Framer.Second, vs: seq<Vec>)
    requires TakenFrom(r, log) && b < |r.taken|
    requires ReadsBlock(sec, vs, r.taken[b])
    ensures r.origin + b < |log| && ReadsBlock(sec, vs, log[r.origin + b])
  {
  }

  /** The blocks a consumer takes, as the parts they were put as. */
  ghost predicate TakenAsPut(s: P.Sys, c: nat, vs: seq<Vec>, feeds: seq<Feed>, stream: seq<Framer.Second>,
                             zeroBad: bool) {
    && T.Reachable(s) && s.byParts && !P.Publishing(s.prod) && c < S.MAX_CONSUMERS
    && PartsBrought(s, vs, feeds, zeroBad) && ReadsTaken(s, c, vs, stream)
  }

  /** A second reads the block that was put with these properties and that these feeds brought. */
  ghost predicate SecondOf(sec: Framer.Second, prop: S.Prop, vs: seq<Vec>, feeds: seq<Feed>, zeroBad: bool) {
    && sec.gps == prop.gps && sec.gpsN == prop.gpsN && sec.run == prop.run && sec.cycle == prop.cycle
    && sec.bytes == PARTS * TotalLen(vs)
    && forall v :: v in vs ==> Fed(sec.data, v.dest, v, feeds, zeroBad)
  }

  lemma ReadIsPut(sec: Framer.Second, x: S.Content, prop: S.Prop, vs: seq<Vec>, feeds: seq<Feed>, zeroBad: bool)
    requires ReadsBlock(sec, vs, x) && PutAs(x, prop, vs, feeds, zeroBad)
    ensures SecondOf(sec, prop, vs, feeds, zeroBad)
  {
    forall v | v in vs ensures Fed(sec.data, v.dest, v, feeds, zeroBad) {
      BlockShows(x, prop, vs, feeds, zeroBad, sec.data, v);
    }
  }

  /** Second b of the stream reads the block at that place of the log, as it was put. */
  lemma SecondIsPut(s: P.Sys, c: nat, vs: seq<Vec>, feeds: seq<Feed>, stream: seq<Framer.Second>, zeroBad: bool, b: nat)
    requires TakenAsPut(s, c, vs, feeds, stream, zeroBad) && b < |stream|
    ensures PARTS * (s.readers[c].origin + b) + PARTS <= |feeds| == |s.parts|
    ensures SecondOf(stream[b], s.parts[PARTS * (s.readers[c].origin + b)].prop, vs,
                     FeedsOf(feeds, s.readers[c].origin + b), zeroBad)
  {
    var r, p := s.readers[c], s.readers[c].origin + b;
    TakenIsLog(s, c);
    BlockWasPut(s, vs, feeds, zeroBad, p);
    TakenIsPut(r, s.log, b, stream[b], s.parts[PARTS * p].prop, vs, FeedsOf(feeds, p), zeroBad);
  }

  lemma TakenIsPut(r: P.Reader, log: seq<S.Content>, b: nat, sec: Framer.Second, prop: S.Prop, vs: seq<Vec>,
                   feeds: seq<Feed>, zeroBad: bool)
    requires TakenFrom(r, log) && b < |r.taken| && ReadsBlock(sec, vs, r.taken[b])
    requires PutAs(log[r.origin + b], prop, vs, feeds, zeroBad)
    ensures SecondOf(sec, prop, vs, feeds, zeroBad)
  {
    ReadAt(r, log, b, sec, vs);
    ReadIsPut(sec, log[r.origin + b], prop, vs, feeds, zeroBad);
  }

  /** A stream reads consecutive blocks, as they were put, from position first on. */
  ghost predicate StreamOf(stream: seq<Framer.Second>, first: nat, parts: seq<P.Part>, vs: seq<Vec>, feeds: seq<Feed>,
                           zeroBad: bool) {
    && |feeds| == |parts| && PARTS * (first + |stream|) <= |feeds|
    && forall b {:trigger ReadsPut(stream, first, parts, vs, feeds, zeroBad, b)} ::
         0 <= b < |stream| ==> ReadsPut(stream, first, parts, vs, feeds, zeroBad, b)
  }

  ghost predicate ReadsPut(stream: seq<Framer.Second>, first: nat, parts: seq<P.Part>, vs: seq<Vec>, feeds: seq<Feed>,
                           zeroBad: bool, b: int) {
    && 0 <= b < |stream| && PARTS * (first + b) + PARTS <= |feeds| && PARTS * (first + b) < |parts|
    && SecondOf(stream[b], parts[PARTS * (first + b)].prop, vs, FeedsOf(feeds, first + b), zeroBad)
  }

  lemma StreamIsPut(s: P.Sys, c: nat, vs: seq<Vec>, feeds: seq<Feed>, stream: seq<Framer.Second>, zeroBad: bool)
    requires TakenAsPut(s, c, vs, feeds, stream, zeroBad) && stream != []
    ensures StreamOf(stream, s.readers[c].origin, s.parts, vs, feeds, zeroBad)
  {
    forall b: nat | b < |stream| ensures ReadsPut(stream, s.readers[c].origin, s.parts, vs, feeds, zeroBad, b) {
      SecondIsPut(s, c, vs, feeds, stream, zeroBad, b);
    }
    assert ReadsPut(stream, s.readers[c].origin, s.parts, vs, feeds, zeroBad, |stream| - 1);
  }

  // ---- ... and frames -----------------------------------------------------------------------------------

  /** The feeds of n blocks from position first on. */
  function FeedsFrom(feeds: seq<Feed>, first: nat, n: nat): (r: seq<seq<Feed>>)
    requires PARTS * (first + n) <= |feeds|
    ensures |r| == n
    ensures forall b :: 0 <= b < n ==> PARTS * (first + b) + PARTS <= |feeds| && r[b] == FeedsOf(feeds, first + b)
  {
    seq(n, b requires 0 <= b < n => FeedsOf(feeds, first + b))
  }

  lemma StreamShows(stream: seq<Framer.Second>, first: nat, parts: seq<P.Part>, vs: seq<Vec>, feeds: seq<Feed>,
                    zeroBad: bool, v: Vec)
    requires StreamOf(stream, first, parts, vs, feeds, zeroBad) && v in vs
    ensures AllShown(stream, v, FeedsFrom(feeds, first, |stream|), zeroBad)
  {
    forall b: nat | b < |stream| ensures ShownIn(stream, b, v, FeedsFrom(feeds, first, |stream|), zeroBad) {
      assert ReadsPut(stream, first, parts, vs, feeds, zeroBad, b);
    }
  }

  lemma TimeIsPut(stream: seq<Framer.Second>, first: nat, parts: seq<P.Part>, vs: seq<Vec>, feeds: seq<Feed>,
                  zeroBad: bool, b: nat)
    requires StreamOf(stream, first, parts, vs, feeds, zeroBad) && b < |stream|
    ensures PARTS * (first + b) < |parts|
    ensures var q := parts[PARTS * (first + b)].prop;
      stream[b].gps == q.gps && stream[b].gpsN == q.gpsN && stream[b].run == q.run && stream[b].cycle == q.cycle
    ensures stream[b].bytes == PARTS * TotalLen(vs)
  {
    assert ReadsPut(stream, first, parts, vs, feeds, zeroBad, b);
  }

  lemma FrameOfPut(cfg: Framer.Config, site: Site, t: seq<Entry>, stream: seq<Framer.Second>, first: nat,
                   parts: seq<P.Part>, feeds: seq<Feed>, zeroBad: bool, start: nat, frames: seq<Framer.Frame>,
                   f: nat, k: nat, i: nat, j: nat)
    requires Framer.Usable(cfg) && Configured(cfg, site, t) && Admitted(site, Channels(t))
    requires StreamOf(stream, first, parts, CopyPlan(site, Channels(t)), feeds, zeroBad)
    requires Framer.AllShaped(cfg, stream) && Framer.Consecutive(stream)
    requires Framer.FramesFrom(cfg, stream, start, frames)
    requires f < |frames| && k < cfg.blocksPerFrame && j < |Framer.AllRows(cfg)|
    requires i < |t| && !t[i].chan.alias && Framer.AllRows(cfg)[j] == i
    ensures |frames[f].vectors| == |Framer.AllRows(cfg)| && t[i].chan.bytes > 0
    ensures SecondIs(frames[f], j, k, t[i].chan.bytes, stream, Framer.FrameStart(cfg, start, f) + k,
                     PlannedVec(site, t, i), FeedsFrom(feeds, first, |stream|), zeroBad)
  {
    ChannelIsPlanned(site, Channels(t), i, |t|);
    StreamShows(stream, first, parts, CopyPlan(site, Channels(t)), feeds, zeroBad, PlannedVec(site, t, i));
    FrameOfStream(cfg, site, t, stream, FeedsFrom(feeds, first, |stream|), zeroBad, start, frames, f, k, i, j);
  }

  /** The whole path: second k of channel i in frame f is what the sixteen feeds brought that were put as the
      parts of the block at that place of the log, whatever the producer and all other consumers did. */
  lemma FrameIsWhatWasPut(s: P.Sys, c: nat, feeds: seq<Feed>, zeroBad: bool,
                          cfg: Framer.Config, site: Site, t: seq<Entry>, stream: seq<Framer.Second>,
                          start: nat, frames: seq<Framer.Frame>, f: nat, k: nat, i: nat, j: nat)
    requires Framer.Usable(cfg) && Configured(cfg, site, t) && Admitted(site, Channels(t))
    requires TakenAsPut(s, c, CopyPlan(site, Channels(t)), feeds, stream, zeroBad) && stream != []
    requires Framer.AllShaped(cfg, stream) && Framer.Consecutive(stream)
    requires Framer.FramesFrom(cfg, stream, start, frames)
    requires f < |frames| && k < cfg.blocksPerFrame && j < |Framer.AllRows(cfg)|
    requires i < |t| && !t[i].chan.alias && Framer.AllRows(cfg)[j] == i
    ensures |frames[f].vectors| == |Framer.AllRows(cfg)| && t[i].chan.bytes > 0
    ensures PARTS * (s.readers[c].origin + |stream|) <= |feeds|
    ensures SecondIs(frames[f], j, k, t[i].chan.bytes, stream, Framer.FrameStart(cfg, start, f) + k,
                     PlannedVec(site, t, i), FeedsFrom(feeds, s.readers[c].origin, |stream|), zeroBad)
  {
    StreamIsPut(s, c, CopyPlan(site, Channels(t)), feeds, stream, zeroBad);
    FrameOfPut(cfg, site, t, stream, s.readers[c].origin, s.parts, feeds, zeroBad, start, frames, f, k, i, j);
  }

  /** ... and its header has the properties that were given with the first part of its first block. */
  lemma HeaderIsWhatWasPut(s: P.Sys, c: nat, vs: seq<Vec>, feeds: seq<Feed>, zeroBad: bool,
                           cfg: Framer.Config, stream: seq<Framer.Second>, start: nat, frames: seq<Framer.Frame>,
                           f: nat)
    requires Framer.Usable(cfg) && TakenAsPut(s, c, vs, feeds, stream, zeroBad) && stream != []
    requires Framer.AllShaped(cfg, stream) && Framer.FramesFrom(cfg, stream, start, frames) && f < |frames|
    ensures var p := PARTS * (s.readers[c].origin + Framer.FrameStart(cfg, start, f));
      && p < |s.parts| && frames[f].gps == s.parts[p].prop.gps && frames[f].gpsN == s.parts[p].prop.gpsN
      && frames[f].run == s.parts[p].prop.run
  {
    StreamIsPut(s, c, vs, feeds, stream, zeroBad);
    Framer.FrameHeader(cfg, stream, start, frames, f);
    TimeIsPut(stream, s.readers[c].origin, s.parts, vs, feeds, zeroBad, Framer.FrameStart(cfg, start, f));
  }

  /** A block that was put in parts ends the framer exactly if the plan copies nothing at all. */
  lemma NoneEmpty(s: P.Sys, c: nat, vs: seq<Vec>, feeds: seq<Feed>, stream: seq<Framer.Second>, zeroBad: bool, b: nat)
    requires TakenAsPut(s, c, vs, feeds, stream, zeroBad) && b < |stream|
    ensures stream[b].bytes == 0 <==> TotalLen(vs) == 0
  {
    SecondIsPut(s, c, vs, feeds, stream, zeroBad, b);
  }
}
