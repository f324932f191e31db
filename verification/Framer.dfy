/** Reading stored seconds back into frames (`framer`). */
module Framer {
  import opened Layout
  import opened Scatter
  import LayoutSound
  import Ring
  import W = Words

  /** The low half of a status word. */
  type Half = w: Bytes | |w| == 2 witness [NUL, NUL]

  const CLEAR: Half := [NUL, NUL]

  datatype Chan = Chan(offset: nat, bytes: nat, active: nat, seqNum: nat)

  /** A block of the main buffer as its reader finds it. */
  datatype Second = Second(gps: nat, gpsN: int, run: int, cycle: nat, bytes: nat, data: Bytes)

  datatype Config = Config(chans: seq<Chan>, science: bool, blocksPerFrame: nat, framesPerFile: nat, statusPtr: nat)

  datatype Frame = Frame(gps: nat, gpsN: int, run: int, number: nat, vectors: seq<Bytes>, valid: seq<Half>)

  predicate Usable(cfg: Config) {
    cfg.blocksPerFrame > 0 && cfg.framesPerFile > 0
  }

  /** Seconds in a file. */
  function FileSeconds(cfg: Config): (r: nat)
    requires Usable(cfg)
    ensures r > 0 && r % cfg.blocksPerFrame == 0
  {
    Ring.ModUnique(cfg.framesPerFile * cfg.blocksPerFrame, cfg.framesPerFile, 0, cfg.blocksPerFrame);
    LayoutSound.Product(1, cfg.framesPerFile, cfg.blocksPerFrame);
    cfg.framesPerFile * cfg.blocksPerFrame
  }

  /** What a frame takes from its first second. */
  function Opened(cfg: Config, s: Second): Frame
    requires Usable(cfg)
  {
    Frame(s.gps, s.gpsN, s.run, s.cycle / 16 / FileSeconds(cfg), [], [])
  }

  /** The channels that go into a frame: active ones, and for a science frame those with bit 1 set. */
  predicate Wanted(cfg: Config, c: Chan) {
    c.active != 0 && (cfg.science ==> c.active / 2 % 2 == 1)
  }

  function Selected(cfg: Config, n: nat): (r: seq<Chan>)
    requires n <= |cfg.chans|
    ensures |r| <= n && forall c :: c in r ==> c in cfg.chans
  {
    if n == 0 then []
    else Selected(cfg, n - 1) + if Wanted(cfg, cfg.chans[n - 1]) then [cfg.chans[n - 1]] else []
  }

  function AllSelected(cfg: Config): seq<Chan> {
    Selected(cfg, |cfg.chans|)
  }

  /** The rows of the table that the channels of a frame come from. */
  function Rows(cfg: Config, n: nat): (m: seq<nat>)
    requires n <= |cfg.chans|
  {
    if n == 0 then [] else Rows(cfg, n - 1) + if Wanted(cfg, cfg.chans[n - 1]) then [n - 1] else []
  }

  function AllRows(cfg: Config): seq<nat> {
    Rows(cfg, |cfg.chans|)
  }

  lemma {:induction false} RowsSelected(cfg: Config, n: nat)
    requires n <= |cfg.chans|
    ensures |Rows(cfg, n)| == |Selected(cfg, n)|
    ensures forall j :: 0 <= j < |Rows(cfg, n)| ==>
      Rows(cfg, n)[j] < n && Selected(cfg, n)[j] == cfg.chans[Rows(cfg, n)[j]]
  {
    if n > 0 {
      RowsSelected(cfg, n - 1);
    }
  }

  lemma RowSelected(cfg: Config, j: nat)
    requires j < |AllRows(cfg)|
    ensures |AllRows(cfg)| == |AllSelected(cfg)| && AllRows(cfg)[j] < |cfg.chans|
    ensures AllSelected(cfg)[j] == cfg.chans[AllRows(cfg)[j]]
  {
    RowsSelected(cfg, |cfg.chans|);
  }

  /** They are, in the order of the table and each once, exactly the rows that are active at all and, for a science
      frame, have bit 1 of `active` set. */
  lemma {:induction false} RowsExact(cfg: Config, n: nat)
    requires n <= |cfg.chans|
    ensures forall a, b :: 0 <= a < b < |Rows(cfg, n)| ==> Rows(cfg, n)[a] < Rows(cfg, n)[b]
    ensures forall i: nat :: i in Rows(cfg, n) <==>
      i < n && cfg.chans[i].active > 0 && (cfg.science ==> W.Bits(cfg.chans[i].active, 2)[1])
  {
    if n > 0 {
      RowsExact(cfg, n - 1);
      RowsSelected(cfg, n - 1);
      SecondBit(cfg.chans[n - 1].active);
    }
  }

  lemma SecondBit(active: nat)
    ensures W.Bits(active, 2)[1] <==> active / 2 % 2 == 1
  {
    assert W.Bits(active, 2) == [active % 2 == 1] + W.Bits(active / 2, 1);
  }

  /** The block has room for every channel and every status word the framer looks at. */
  ghost predicate Shaped(cfg: Config, s: Second) {
    forall c :: c in cfg.chans ==> InBlock(cfg, c, s)
  }

  predicate InBlock(cfg: Config, c: Chan, s: Second) {
    c.offset + c.bytes <= |s.data| && cfg.statusPtr + STATUS_BYTES * c.seqNum + 2 <= |s.data|
  }

  function Extent(c: Chan, s: Second): (r: Bytes)
    requires c.offset + c.bytes <= |s.data|
    ensures |r| == c.bytes
  {
    s.data[c.offset..c.offset + c.bytes]
  }

  function HalfAt(d: Bytes, at: nat): Half
    requires at + 2 <= |d|
  {
    [d[at], d[at + 1]]
  }

  function Status(cfg: Config, c: Chan, s: Second): Half
    requires InBlock(cfg, c, s)
  {
    HalfAt(s.data, cfg.statusPtr + STATUS_BYTES * c.seqNum)
  }

  /** memor2 into a cleared half. */
  function OrHalf(a: Half, b: Half): Half {
    [Or(a[0], b[0]), Or(a[1], b[1])]
  }

  lemma OrWithClear(b: Half)
    ensures OrHalf(CLEAR, b) == b
  {
    assert Or(NUL, b[0]) == b[0] && Or(NUL, b[1]) == b[1];
  }

  // ---- what a frame has to be -------------------------------------------------------------------

  ghost predicate AllShaped(cfg: Config, secs: seq<Second>) {
    forall k :: 0 <= k < |secs| ==> Shaped(cfg, secs[k])
  }

  /** A channel's extents, second after second. */
  function Vector(cfg: Config, c: Chan, secs: seq<Second>): Bytes
    requires AllShaped(cfg, secs) && c in cfg.chans
  {
    if secs == [] then []
    else
      var n := |secs| - 1;
      assert Shaped(cfg, secs[n]);
      Vector(cfg, c, secs[..n]) + Extent(c, secs[n])
  }

  /** The last status that was not clear. */
  function DataValid(cfg: Config, c: Chan, secs: seq<Second>): Half
    requires AllShaped(cfg, secs) && c in cfg.chans
  {
    if secs == [] then CLEAR
    else
      var n := |secs| - 1;
      assert Shaped(cfg, secs[n]);
      if Status(cfg, c, secs[n]) != CLEAR then Status(cfg, c, secs[n]) else DataValid(cfg, c, secs[..n])
  }

  /** The vectors and the validity of a frame made of these seconds. */
  ghost predicate Made(cfg: Config, secs: seq<Second>, vectors: seq<Bytes>, valid: seq<Half>)
    requires AllShaped(cfg, secs)
  {
    var cs := AllSelected(cfg);
    && |vectors| == |cs| && |valid| == |cs|
    && (forall k :: 0 <= k < |cs| ==>
          vectors[k] == Vector(cfg, cs[k], secs) && valid[k] == DataValid(cfg, cs[k], secs))
  }

  ghost predicate FrameOf(cfg: Config, secs: seq<Second>, f: Frame)
    requires AllShaped(cfg, secs) && secs != [] && Usable(cfg)
  {
    && f.(vectors := [], valid := []) == Opened(cfg, secs[0])
    && Made(cfg, secs, f.vectors, f.valid)
  }

  /** The low half of the status word is set. */
  ghost predicate Marked(cfg: Config, c: Chan, s: Second) {
    InBlock(cfg, c, s) && Status(cfg, c, s) != CLEAR
  }

  /** DataValid is set in a frame exactly when some second's status was not clear. */
  lemma {:induction false} ValidMeans(cfg: Config, c: Chan, secs: seq<Second>)
    requires AllShaped(cfg, secs) && c in cfg.chans
    ensures DataValid(cfg, c, secs) != CLEAR <==> exists k :: 0 <= k < |secs| && Marked(cfg, c, secs[k])
  {
    if secs != [] {
      var n := |secs| - 1;
      assert Shaped(cfg, secs[n]);
      ValidMeans(cfg, c, secs[..n]);
      assert forall k :: 0 <= k < n ==> secs[..n][k] == secs[k];
    }
  }

  /** The value DataValid has then is the status of the last such second. */
  lemma {:induction false} ValidIsLast(cfg: Config, c: Chan, secs: seq<Second>) returns (k: nat)
    requires AllShaped(cfg, secs) && c in cfg.chans && DataValid(cfg, c, secs) != CLEAR
    ensures k < |secs| && Marked(cfg, c, secs[k]) && DataValid(cfg, c, secs) == Status(cfg, c, secs[k])
    ensures forall l :: k < l < |secs| ==> !Marked(cfg, c, secs[l])
  {
    var n := |secs| - 1;
    assert Shaped(cfg, secs[n]);
    if Status(cfg, c, secs[n]) != CLEAR {
      k := n;
    } else {
      k := ValidIsLast(cfg, c, secs[..n]);
      forall l | k < l < |secs| ensures !Marked(cfg, c, secs[l]) {
        assert l < n ==> secs[l] == secs[..n][l];
      }
    }
  }

  lemma {:induction false} VectorLength(cfg: Config, c: Chan, secs: seq<Second>)
    requires AllShaped(cfg, secs) && c in cfg.chans
    ensures |Vector(cfg, c, secs)| == |secs| * c.bytes
    decreases |secs|
  {
    if secs != [] {
      var n := |secs| - 1;
      assert Shaped(cfg, secs[n]);
      VectorLength(cfg, c, secs[..n]);
      assert |secs| * c.bytes == n * c.bytes + c.bytes;
    }
  }

  lemma HoldsInFront(v: Bytes, e: Bytes, at: nat, b: Bytes)
    ensures Holds(v, at, b) ==> Holds(v + e, at, b)
    ensures Holds(v + e, |v|, e)
  {
  }

  lemma SecondsFit(k: nat, n: nat, bytes: nat)
    requires k < n
    ensures k * bytes + bytes <= n * bytes
  {
    LayoutSound.Product(k + 1, n, bytes);
    assert (k + 1) * bytes == k * bytes + bytes;
  }

  /** Second k of a channel's vector is its extent in block k. */
  lemma {:induction false} VectorSecond(cfg: Config, c: Chan, secs: seq<Second>, k: nat)
    requires AllShaped(cfg, secs) && c in cfg.chans && k < |secs|
    ensures InBlock(cfg, c, secs[k]) && Holds(Vector(cfg, c, secs), k * c.bytes, Extent(c, secs[k]))
    decreases |secs|
  {
    var n := |secs| - 1;
    assert Shaped(cfg, secs[n]) && Shaped(cfg, secs[k]);
    VectorLength(cfg, c, secs[..n]);
    var v := Vector(cfg, c, secs[..n]);
    HoldsInFront(v, Extent(c, secs[n]), k * c.bytes, Extent(c, secs[k]));
    if k < n {
      VectorSecond(cfg, c, secs[..n], k);
    }
  }

  // ---- the framer's loops -----------------------------------------------------------------------

  /** A frame buffer that holds the seconds so far, with room for the others. */
  ghost predicate FilledTo(cfg: Config, c: Chan, secs: seq<Second>, vec: Bytes)
    requires AllShaped(cfg, secs) && c in cfg.chans
  {
    |vec| == cfg.blocksPerFrame * c.bytes && Holds(vec, 0, Vector(cfg, c, secs))
  }

  lemma HoldsBoth(d: Bytes, a: Bytes, b: Bytes)
    requires Holds(d, 0, a) && Holds(d, |a|, b)
    ensures Holds(d, 0, a + b)
  {
  }

  /** One channel of one second: its data, and its validity, cleared at the first second of a frame. */
  method CopyChannel(cfg: Config, c: Chan, s: Second, bnum: nat, ghost secs: seq<Second>, vec0: Bytes, valid0: Half)
    returns (vec: Bytes, valid: Half)
    requires c in cfg.chans && Shaped(cfg, s) && AllShaped(cfg, secs) && |secs| == bnum < cfg.blocksPerFrame
    requires FilledTo(cfg, c, secs, vec0) && (bnum > 0 ==> valid0 == DataValid(cfg, c, secs))
    ensures AllShaped(cfg, secs + [s])
    ensures FilledTo(cfg, c, secs + [s], vec) && valid == DataValid(cfg, c, secs + [s])
  {
    ghost var all := secs + [s];
    assert all[..bnum] == secs;
    VectorLength(cfg, c, secs);
    SecondsFit(bnum, cfg.blocksPerFrame, c.bytes);
    vec := Splice(vec0, bnum * c.bytes, Extent(c, s));
    assert Holds(vec, 0, Vector(cfg, c, secs));
    HoldsBoth(vec, Vector(cfg, c, secs), Extent(c, s));
    var dataValid := OrHalf(CLEAR, Status(cfg, c, s));
    OrWithClear(Status(cfg, c, s));
    valid := valid0;
    if bnum == 0 {
      valid := CLEAR;
    }
    if dataValid != CLEAR {
      valid := dataValid;
    }
  }

  lemma {:induction false} SelectedPrefix(cfg: Config, n: nat, m: nat)
    requires n <= m <= |cfg.chans|
    ensures |Selected(cfg, n)| <= |Selected(cfg, m)| && Selected(cfg, m)[..|Selected(cfg, n)|] == Selected(cfg, n)
    decreases m
  {
    if n < m {
      SelectedPrefix(cfg, n, m - 1);
    }
  }

  /** Every selected channel's buffer and validity after these seconds. */
  ghost predicate Gathered(cfg: Config, secs: seq<Second>, vectors: seq<Bytes>, valid: seq<Half>, from: nat, to: nat)
    requires AllShaped(cfg, secs)
  {
    var cs := AllSelected(cfg);
    && |vectors| == |cs| && |valid| == |cs| && from <= to <= |cs|
    && (forall k :: from <= k < to ==>
          FilledTo(cfg, cs[k], secs, vectors[k]) && (secs != [] ==> valid[k] == DataValid(cfg, cs[k], secs)))
  }

  /** One second: the loop over the channels, with nac counting those that are wanted. */
  method AddSecond(cfg: Config, s: Second, bnum: nat, ghost secs: seq<Second>, vectors0: seq<Bytes>, valid0: seq<Half>)
    returns (vectors: seq<Bytes>, valid: seq<Half>)
    requires Shaped(cfg, s) && AllShaped(cfg, secs) && |secs| == bnum < cfg.blocksPerFrame
    requires Gathered(cfg, secs, vectors0, valid0, 0, |AllSelected(cfg)|)
    ensures AllShaped(cfg, secs + [s])
    ensures Gathered(cfg, secs + [s], vectors, valid, 0, |AllSelected(cfg)|)
  {
    ghost var cs := AllSelected(cfg);
    vectors, valid := vectors0, valid0;
    var nac := 0;
    for j := 0 to |cfg.chans|
      invariant nac == |Selected(cfg, j)| && nac <= |cs|
      invariant Gathered(cfg, secs + [s], vectors, valid, 0, nac)
      invariant Gathered(cfg, secs, vectors, valid, nac, |cs|)
    {
      var c := cfg.chans[j];
      SelectedPrefix(cfg, j + 1, |cfg.chans|);
      if !Wanted(cfg, c) {
        continue;
      }
      assert cs[nac] == Selected(cfg, j + 1)[nac] == c;
      var vec, v := CopyChannel(cfg, c, s, bnum, secs, vectors[nac], valid[nac]);
      vectors, valid := vectors[nac := vec], valid[nac := v];
      nac := nac + 1;
    }
  }

  /** The buffers hold the n blocks from `at` on. */
  ghost predicate SoFar(cfg: Config, stream: seq<Second>, at: nat, n: nat, vectors: seq<Bytes>, valid: seq<Half>) {
    && at + n <= |stream| && AllShaped(cfg, stream[at..at + n])
    && Gathered(cfg, stream[at..at + n], vectors, valid, 0, |AllSelected(cfg)|)
  }

  lemma SliceShaped(cfg: Config, stream: seq<Second>, at: nat, to: nat)
    requires AllShaped(cfg, stream) && at <= to < |stream|
    ensures AllShaped(cfg, stream[at..to]) && Shaped(cfg, stream[to])
    ensures stream[at..to] + [stream[to]] == stream[at..to + 1]
  {
  }

  /** Block number bnum of the frame. */
  method AddBlock(cfg: Config, stream: seq<Second>, at: nat, bnum: nat, vectors0: seq<Bytes>, valid0: seq<Half>)
    returns (vectors: seq<Bytes>, valid: seq<Half>)
    requires AllShaped(cfg, stream) && at + bnum < |stream| && bnum < cfg.blocksPerFrame
    requires SoFar(cfg, stream, at, bnum, vectors0, valid0)
    ensures SoFar(cfg, stream, at, bnum + 1, vectors, valid)
  {
    SliceShaped(cfg, stream, at, at + bnum);
    vectors, valid := AddSecond(cfg, stream[at + bnum], bnum, stream[at..at + bnum], vectors0, valid0);
  }

  lemma NothingSoFar(cfg: Config, stream: seq<Second>, at: nat, buffers: seq<Bytes>, flags: seq<Half>)
    requires at <= |stream| && |buffers| == |AllSelected(cfg)| == |flags|
    requires forall k :: 0 <= k < |buffers| ==> |buffers[k]| == cfg.blocksPerFrame * AllSelected(cfg)[k].bytes
    ensures SoFar(cfg, stream, at, 0, buffers, flags)
  {
  }

  /** All seconds of one frame, from block `at` on. */
  method MakeFrame(cfg: Config, stream: seq<Second>, at: nat, buffers: seq<Bytes>, flags: seq<Half>)
    returns (eof: bool, stopped: nat, frame: Frame)
    requires Usable(cfg) && AllShaped(cfg, stream) && at + cfg.blocksPerFrame <= |stream|
    requires |buffers| == |AllSelected(cfg)| == |flags|
    requires forall k :: 0 <= k < |buffers| ==> |buffers[k]| == cfg.blocksPerFrame * AllSelected(cfg)[k].bytes
    ensures at <= stopped <= at + cfg.blocksPerFrame
    ensures forall k :: at <= k < stopped ==> stream[k].bytes != 0
    ensures if eof then stopped < at + cfg.blocksPerFrame && stream[stopped].bytes == 0
            else stopped == at + cfg.blocksPerFrame && FrameAt(cfg, stream, at, frame)
  {
    var vectors, valid := buffers, flags;
    frame := Opened(cfg, stream[at]);
    eof, stopped := false, at;
    NothingSoFar(cfg, stream, at, buffers, flags);
    for bnum := 0 to cfg.blocksPerFrame
      invariant stopped == at + bnum && !eof && frame == Opened(cfg, stream[at])
      invariant forall k :: at <= k < at + bnum ==> stream[k].bytes != 0
      invariant SoFar(cfg, stream, at, bnum, vectors, valid)
    {
      var s := stream[at + bnum];
      if s.bytes == 0 {
        eof := true;
        return;
      }
      if bnum == 0 {
        frame := Opened(cfg, s);
      }
      vectors, valid := AddBlock(cfg, stream, at, bnum, vectors, valid);
      stopped := stopped + 1;
    }
    frame := frame.(vectors := vectors, valid := valid);
    FrameIsMade(cfg, stream, at, vectors, valid);
  }

  lemma FrameIsMade(cfg: Config, stream: seq<Second>, at: nat, vectors: seq<Bytes>, valid: seq<Half>)
    requires Usable(cfg) && AllShaped(cfg, stream) && at + cfg.blocksPerFrame <= |stream|
    requires SoFar(cfg, stream, at, cfg.blocksPerFrame, vectors, valid)
    ensures FrameAt(cfg, stream, at, Opened(cfg, stream[at]).(vectors := vectors, valid := valid))
  {
    var cs, secs := AllSelected(cfg), stream[at..at + cfg.blocksPerFrame];
    forall k | 0 <= k < |cs| ensures vectors[k] == Vector(cfg, cs[k], secs) {
      VectorLength(cfg, cs[k], secs);
    }
  }

  // ---- frame after frame ------------------------------------------------------------------------

  /** Block number of the first second of frame f. */
  function FrameStart(cfg: Config, start: nat, f: nat): nat
    decreases f, start
  {
    if f == 0 then start else FrameStart(cfg, start, f - 1) + cfg.blocksPerFrame
  }

  /** The frames made of the blocks from `start` on, with no empty block among them. */
  ghost predicate FramesFrom(cfg: Config, stream: seq<Second>, start: nat, frames: seq<Frame>)
    requires Usable(cfg) && AllShaped(cfg, stream)
  {
    && FrameStart(cfg, start, |frames|) <= |stream|
    && (forall k :: start <= k < FrameStart(cfg, start, |frames|) ==> stream[k].bytes != 0)
    && (forall f :: 0 <= f < |frames| ==> FrameAt(cfg, stream, FrameStart(cfg, start, f), frames[f]))
  }

  ghost predicate FrameAt(cfg: Config, stream: seq<Second>, at: nat, f: Frame)
    requires Usable(cfg) && AllShaped(cfg, stream)
  {
    at + cfg.blocksPerFrame <= |stream| && FrameOf(cfg, stream[at..at + cfg.blocksPerFrame], f)
  }

  /** The first block the framer uses: the first whose time is a multiple of the file length. */
  ghost predicate FirstUsed(cfg: Config, stream: seq<Second>, start: nat)
    requires Usable(cfg)
  {
    && start <= |stream|
    && (forall k :: 0 <= k < start ==> stream[k].gps % FileSeconds(cfg) != 0)
    && (start < |stream| ==> stream[start].gps % FileSeconds(cfg) == 0)
  }

  /** The loop that is run only before the first frame. */
  method SkipTo(cfg: Config, stream: seq<Second>) returns (start: nat)
    requires Usable(cfg)
    ensures FirstUsed(cfg, stream, start)
  {
    start := 0;
    while start < |stream| && stream[start].gps % FileSeconds(cfg) != 0
      invariant start <= |stream| && forall k :: 0 <= k < start ==> stream[k].gps % FileSeconds(cfg) != 0
    {
      start := start + 1;
    }
  }

  /** The blocks from `at` on are not enough for a frame, or one of them ends the framer. */
  ghost predicate Ends(cfg: Config, stream: seq<Second>, at: nat) {
    at + cfg.blocksPerFrame > |stream| || exists k :: at <= k < at + cfg.blocksPerFrame && stream[k].bytes == 0
  }

  /** The framer on everything its consumer will ever get. The buffers come from a pool; what they
      hold does not matter. */
  method Run(cfg: Config, stream: seq<Second>, buffers: seq<Bytes>, flags: seq<Half>)
    returns (frames: seq<Frame>, start: nat)
    requires Usable(cfg) && AllShaped(cfg, stream)
    requires |buffers| == |AllSelected(cfg)| == |flags|
    requires forall k :: 0 <= k < |buffers| ==> |buffers[k]| == cfg.blocksPerFrame * AllSelected(cfg)[k].bytes
    ensures FirstUsed(cfg, stream, start) && FramesFrom(cfg, stream, start, frames)
    ensures Ends(cfg, stream, FrameStart(cfg, start, |frames|))
  {
    start := SkipTo(cfg, stream);
    var at := start;
    frames := [];
    while at + cfg.blocksPerFrame <= |stream|
      invariant at == FrameStart(cfg, start, |frames|) <= |stream|
      invariant FramesFrom(cfg, stream, start, frames)
    {
      var eof, stopped, frame := MakeFrame(cfg, stream, at, buffers, flags);
      if eof {
        return;
      }
      FramesGrow(cfg, stream, start, frames, frame);
      frames := frames + [frame];
      at := stopped;
    }
  }

  lemma FramesGrow(cfg: Config, stream: seq<Second>, start: nat, frames: seq<Frame>, frame: Frame)
    requires Usable(cfg) && AllShaped(cfg, stream) && FramesFrom(cfg, stream, start, frames)
    requires var at := FrameStart(cfg, start, |frames|);
      FrameAt(cfg, stream, at, frame) && forall k :: at <= k < at + cfg.blocksPerFrame ==> stream[k].bytes != 0
    ensures FramesFrom(cfg, stream, start, frames + [frame])
  {
    var more := frames + [frame];
    assert FrameStart(cfg, start, |more|) == FrameStart(cfg, start, |frames|) + cfg.blocksPerFrame;
    forall f | 0 <= f < |more| ensures FrameAt(cfg, stream, FrameStart(cfg, start, f), more[f]) {
    }
  }

  /** Stored seconds one second apart. */
  ghost predicate Consecutive(stream: seq<Second>) {
    forall k {:trigger Follows(stream, k)} :: 0 < k < |stream| ==> Follows(stream, k)
  }

  predicate Follows(stream: seq<Second>, k: int)
    requires 0 < k < |stream|
  {
    stream[k].gps == stream[k - 1].gps + 1
  }

  lemma {:induction false} ConsecutiveTimes(stream: seq<Second>, a: nat, b: nat)
    requires Consecutive(stream) && a <= b < |stream|
    ensures stream[b].gps == stream[a].gps + (b - a)
    decreases b
  {
    if a < b {
      assert Follows(stream, b);
      ConsecutiveTimes(stream, a, b - 1);
    }
  }

  lemma {:induction false} StartInReach(cfg: Config, start: nat, f: nat, n: nat)
    requires f < n
    ensures FrameStart(cfg, start, f) + cfg.blocksPerFrame <= FrameStart(cfg, start, n)
    ensures start <= FrameStart(cfg, start, f)
    decreases n
  {
    if f > 0 {
      StartInReach(cfg, start, f - 1, f);
    }
    if f < n - 1 {
      StartInReach(cfg, start, f, n - 1);
    }
  }

  lemma {:induction false} StartAligned(cfg: Config, start: nat, f: nat, gps: nat)
    requires Usable(cfg) && gps % cfg.blocksPerFrame == 0
    ensures FrameStart(cfg, start, f) >= start
    ensures (gps + (FrameStart(cfg, start, f) - start)) % cfg.blocksPerFrame == 0
    decreases f
  {
    if f > 0 {
      StartAligned(cfg, start, f - 1, gps);
      NextMultiple(gps + (FrameStart(cfg, start, f - 1) - start), cfg.blocksPerFrame);
    }
  }

  lemma NextMultiple(x: nat, n: nat)
    requires n > 0 && x % n == 0
    ensures (x + n) % n == 0
  {
    var q := x / n;
    assert x == q * n;
    assert x + n == (q + 1) * n;
    Ring.ModUnique(x + n, q + 1, 0, n);
  }

  lemma Divides(x: nat, a: nat, b: nat)
    requires a > 0 && b > 0 && x % a == 0 && a % b == 0
    ensures x % b == 0
  {
    var p, q := x / a, a / b;
    assert x == p * a && a == q * b;
    assert x == p * (q * b) == (p * q) * b;
    Ring.ModUnique(x, p * q, 0, b);
  }

  /** A frame's time is counted from the first block used. */
  lemma FrameTime(cfg: Config, stream: seq<Second>, start: nat, frames: seq<Frame>, f: nat)
    requires Usable(cfg) && AllShaped(cfg, stream) && Consecutive(stream)
    requires FramesFrom(cfg, stream, start, frames) && f < |frames|
    ensures start < |stream| && frames[f].gps == stream[start].gps + (FrameStart(cfg, start, f) - start)
  {
    GpsOfFrame(cfg, stream, start, frames, f);
    ConsecutiveTimes(stream, start, FrameStart(cfg, start, f));
  }

  /** Frames start on multiples of their length and follow each other without a gap; the first of them is the first
      that starts a file. */
  lemma FrameTiling(cfg: Config, stream: seq<Second>, start: nat, frames: seq<Frame>, f: nat)
    requires Usable(cfg) && AllShaped(cfg, stream) && Consecutive(stream)
    requires FirstUsed(cfg, stream, start) && FramesFrom(cfg, stream, start, frames) && f < |frames|
    ensures frames[f].gps % cfg.blocksPerFrame == 0
    ensures f + 1 < |frames| ==> frames[f + 1].gps == frames[f].gps + cfg.blocksPerFrame
    ensures frames[0].gps % (cfg.framesPerFile * cfg.blocksPerFrame) == 0
    ensures forall k :: 0 <= k < start ==> stream[k].gps % (cfg.framesPerFile * cfg.blocksPerFrame) != 0
  {
    GpsOfFrame(cfg, stream, start, frames, 0);
    FrameTime(cfg, stream, start, frames, f);
    var first := stream[start].gps;
    Divides(first, FileSeconds(cfg), cfg.blocksPerFrame);
    StartAligned(cfg, start, f, first);
    if f + 1 < |frames| {
      FrameTime(cfg, stream, start, frames, f + 1);
      assert FrameStart(cfg, start, f + 1) == FrameStart(cfg, start, f) + cfg.blocksPerFrame;
    }
  }

  lemma GpsOfFrame(cfg: Config, stream: seq<Second>, start: nat, frames: seq<Frame>, f: nat)
    requires Usable(cfg) && AllShaped(cfg, stream) && FramesFrom(cfg, stream, start, frames) && f < |frames|
    ensures var at := FrameStart(cfg, start, f);
      start <= at < |stream| && frames[f].gps == stream[at].gps
  {
    assert FrameAt(cfg, stream, FrameStart(cfg, start, f), frames[f]);
    StartInReach(cfg, start, f, |frames|);
  }

  /** Second k of every channel of frame f is that channel's extent in the block stored for second
      gps + k. */
  lemma FrameContent(cfg: Config, stream: seq<Second>, start: nat, frames: seq<Frame>, f: nat, k: nat, j: nat)
    requires Usable(cfg) && AllShaped(cfg, stream) && Consecutive(stream)
    requires FramesFrom(cfg, stream, start, frames)
    requires f < |frames| && k < cfg.blocksPerFrame && j < |AllSelected(cfg)|
    ensures var b, c := FrameStart(cfg, start, f) + k, AllSelected(cfg)[j];
      && b < |stream| && stream[b].gps == frames[f].gps + k && |frames[f].vectors| == |AllSelected(cfg)|
      && InBlock(cfg, c, stream[b]) && Holds(frames[f].vectors[j], k * c.bytes, Extent(c, stream[b]))
  {
    GpsOfFrame(cfg, stream, start, frames, f);
    var at := FrameStart(cfg, start, f);
    SecondOfFrame(cfg, stream, at, frames[f], k, j);
    ConsecutiveTimes(stream, at, at + k);
  }

  /** What a frame holds: as many vectors as rows are wanted, in the order of the rows, each as long as the seconds
      of the frame; second k of vector j is that row's extent in the block of second k. */
  lemma FrameHolds(cfg: Config, stream: seq<Second>, start: nat, frames: seq<Frame>, f: nat, k: nat, j: nat)
    requires Usable(cfg) && AllShaped(cfg, stream) && Consecutive(stream)
    requires FramesFrom(cfg, stream, start, frames)
    requires f < |frames| && k < cfg.blocksPerFrame && j < |AllRows(cfg)|
    ensures AllRows(cfg)[j] < |cfg.chans|
    ensures |frames[f].vectors| == |frames[f].valid| == |AllRows(cfg)|
    ensures var b, c := FrameStart(cfg, start, f) + k, cfg.chans[AllRows(cfg)[j]];
      && b < |stream| && stream[b].gps == frames[f].gps + k
      && |frames[f].vectors[j]| == cfg.blocksPerFrame * c.bytes && InBlock(cfg, c, stream[b])
      && Holds(frames[f].vectors[j], k * c.bytes, Extent(c, stream[b]))
  {
    RowSelected(cfg, j);
    FrameContent(cfg, stream, start, frames, f, k, j);
    var at := FrameStart(cfg, start, f);
    assert FrameAt(cfg, stream, at, frames[f]);
    VectorLength(cfg, AllSelected(cfg)[j], stream[at..at + cfg.blocksPerFrame]);
  }

  /** The header of a frame is that of its first second; its number counts files by the cycle counter, sixteen
      cycles a second. */
  lemma FrameHeader(cfg: Config, stream: seq<Second>, start: nat, frames: seq<Frame>, f: nat)
    requires Usable(cfg) && AllShaped(cfg, stream) && FramesFrom(cfg, stream, start, frames) && f < |frames|
    ensures var at, cycles := FrameStart(cfg, start, f), 16 * (cfg.framesPerFile * cfg.blocksPerFrame);
      && at < |stream| && frames[f].gps == stream[at].gps && frames[f].gpsN == stream[at].gpsN
      && frames[f].run == stream[at].run
      && frames[f].number * cycles <= stream[at].cycle < (frames[f].number + 1) * cycles
  {
    GpsOfFrame(cfg, stream, start, frames, f);
    var at := FrameStart(cfg, start, f);
    assert FrameAt(cfg, stream, at, frames[f]);
    TwiceDivided(stream[at].cycle, FileSeconds(cfg));
  }

  lemma TwiceDivided(x: nat, n: nat)
    requires n > 0
    ensures var q := x / 16 / n; q * (16 * n) <= x < (q + 1) * (16 * n)
  {
    var y := x / 16;
    var q := y / n;
    assert q * n <= y < (q + 1) * n by {
      assert y == q * n + y % n && (q + 1) * n == q * n + n;
    }
    assert q * (16 * n) == 16 * (q * n) && (q + 1) * (16 * n) == 16 * ((q + 1) * n);
  }

  /** FrameContent for a channel known by name. */
  lemma ContentOf(cfg: Config, stream: seq<Second>, start: nat, frames: seq<Frame>, f: nat, k: nat, j: nat,
                  c: Chan, b: nat, at: int)
    requires Usable(cfg) && AllShaped(cfg, stream) && Consecutive(stream)
    requires FramesFrom(cfg, stream, start, frames)
    requires f < |frames| && k < cfg.blocksPerFrame && j < |AllSelected(cfg)| && c == AllSelected(cfg)[j]
    requires b == FrameStart(cfg, start, f) + k && at == k * c.bytes
    ensures b < |stream| && stream[b].gps == frames[f].gps + k && |frames[f].vectors| == |AllSelected(cfg)|
    ensures InBlock(cfg, c, stream[b]) && Holds(frames[f].vectors[j], at, Extent(c, stream[b]))
  {
    FrameContent(cfg, stream, start, frames, f, k, j);
  }

  lemma SecondOfFrame(cfg: Config, stream: seq<Second>, at: nat, frame: Frame, k: nat, j: nat)
    requires Usable(cfg) && AllShaped(cfg, stream) && FrameAt(cfg, stream, at, frame)
    requires k < cfg.blocksPerFrame && j < |AllSelected(cfg)|
    ensures var c := AllSelected(cfg)[j];
      && |frame.vectors| == |AllSelected(cfg)| && at + k < |stream| && InBlock(cfg, c, stream[at + k])
      && Holds(frame.vectors[j], k * c.bytes, Extent(c, stream[at + k]))
  {
    var secs := stream[at..at + cfg.blocksPerFrame];
    assert secs[k] == stream[at + k];
    VectorSecond(cfg, AllSelected(cfg)[j], secs, k);
  }

  /** DataValid of a channel is set in a frame exactly when the low half of its status word was set in
      one of the frame's seconds. */
  lemma FrameValid(cfg: Config, stream: seq<Second>, start: nat, frames: seq<Frame>, f: nat, j: nat)
    requires Usable(cfg) && AllShaped(cfg, stream) && FramesFrom(cfg, stream, start, frames)
    requires f < |frames| && j < |AllSelected(cfg)|
    ensures |frames[f].valid| == |AllSelected(cfg)|
    ensures frames[f].valid[j] != CLEAR <==>
      exists k :: FrameStart(cfg, start, f) <= k < FrameStart(cfg, start, f) + cfg.blocksPerFrame && k < |stream| &&
        Marked(cfg, AllSelected(cfg)[j], stream[k])
  {
    var at, c := FrameStart(cfg, start, f), AllSelected(cfg)[j];
    assert FrameAt(cfg, stream, at, frames[f]);
    ValidMeans(cfg, c, stream[at..at + cfg.blocksPerFrame]);
    MarkedInSlice(cfg, c, stream, at, at + cfg.blocksPerFrame);
  }

  /** A DataValid that is set is the status of the last second of the frame that has one. */
  lemma FrameValidIsLast(cfg: Config, stream: seq<Second>, start: nat, frames: seq<Frame>, f: nat, j: nat)
    returns (k: nat)
    requires Usable(cfg) && AllShaped(cfg, stream) && FramesFrom(cfg, stream, start, frames)
    requires f < |frames| && j < |AllRows(cfg)|
    requires |frames[f].valid| == |AllRows(cfg)| && frames[f].valid[j] != CLEAR
    ensures AllRows(cfg)[j] < |cfg.chans|
    ensures var at, c := FrameStart(cfg, start, f), cfg.chans[AllRows(cfg)[j]];
      && at <= k < at + cfg.blocksPerFrame <= |stream| && Marked(cfg, c, stream[k])
      && frames[f].valid[j] == Status(cfg, c, stream[k])
      && forall l :: k < l < at + cfg.blocksPerFrame ==> !Marked(cfg, c, stream[l])
  {
    RowSelected(cfg, j);
    var at, c := FrameStart(cfg, start, f), cfg.chans[AllRows(cfg)[j]];
    assert FrameAt(cfg, stream, at, frames[f]);
    var secs := stream[at..at + cfg.blocksPerFrame];
    var i := ValidIsLast(cfg, c, secs);
    k := at + i;
    forall l | k < l < at + cfg.blocksPerFrame ensures !Marked(cfg, c, stream[l]) {
      assert stream[l] == secs[l - at];
    }
  }

  lemma MarkedInSlice(cfg: Config, c: Chan, stream: seq<Second>, at: nat, to: nat)
    requires at <= to <= |stream|
    ensures (exists k :: 0 <= k < to - at && Marked(cfg, c, stream[at..to][k])) <==>
            exists k :: at <= k < to && Marked(cfg, c, stream[k])
  {
    if k :| at <= k < to && Marked(cfg, c, stream[k]) {
      assert stream[at..to][k - at] == stream[k];
    }
  }
}
