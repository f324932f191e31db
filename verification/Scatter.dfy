/** The scatter writer: sixteen calls, each copying one slice of every vector into the block and
    recording its status word (`put16th_dpscattered`). */
module Scatter {
  import opened Layout
  import opened LayoutSound
  import W = Words

  type Byte = W.Octet
  type Bytes = seq<Byte>

  /** A 4-byte status word as it lies in memory. */
  type Word4 = w: Bytes | |w| == 4 witness [W.Zeros(8), W.Zeros(8), W.Zeros(8), W.Zeros(8)]

  const NUL: Byte := W.Zeros(8)
  const ZERO: Word4 := [NUL, NUL, NUL, NUL]

  /** What the 16th of a second brings: the move buffer and the status words of the DCUs. */
  datatype Feed = Feed(move: Bytes, status: map<nat, Word4>)

  /** The bytes b stand at position at. */
  ghost predicate Holds(d: Bytes, at: int, b: Bytes) {
    0 <= at && at + |b| <= |d| && forall i {:trigger d[i]} :: at <= i < at + |b| ==> d[i] == b[i - at]
  }

  /** The word at position at. */
  function WordAt(d: Bytes, at: int): Word4
    requires 0 <= at && at + 4 <= |d|
  {
    [d[at], d[at + 1], d[at + 2], d[at + 3]]
  }

  function StatusIn(feed: Feed, s: StatusWord): Word4
    requires s.InMoveBuffer? ==> 0 <= s.at && s.at + 4 <= |feed.move|
  {
    match s
    case Zero => ZERO
    case InMoveBuffer(at) => WordAt(feed.move, at)
    case OfDcu(d) => if d in feed.status then feed.status[d] else ZERO
  }

  function Cleared(n: nat): (r: Bytes)
    ensures |r| == n
  {
    seq(n, _ => NUL)
  }

  /** The vector reads inside the move buffer. */
  predicate Readable(v: Vec, feed: Feed) {
    && v.len >= 0 && 0 <= v.src && v.src + v.len <= |feed.move|
    && (v.status.InMoveBuffer? ==> 0 <= v.status.at && v.status.at + 4 <= |feed.move|)
  }

  /** What ends up in the block for one vector and one part. */
  function Slice(v: Vec, feed: Feed, zeroBad: bool): (r: Bytes)
    requires Readable(v, feed)
    ensures |r| == v.len
  {
    if StatusIn(feed, v.status) != ZERO && zeroBad then Cleared(v.len) else feed.move[v.src..v.src + v.len]
  }

  function Or(a: Byte, b: Byte): Byte {
    W.Or(a, b)
  }

  /** memor4 */
  function OrWord(a: Word4, b: Word4): Word4 {
    [Or(a[0], b[0]), Or(a[1], b[1]), Or(a[2], b[2]), Or(a[3], b[3])]
  }

  /** d with the bytes b at position at. */
  function Splice(d: Bytes, at: int, b: Bytes): (r: Bytes)
    requires 0 <= at && at + |b| <= |d|
    ensures |r| == |d| && Holds(r, at, b)
    ensures forall i {:trigger r[i]} :: 0 <= i < |d| && !(at <= i < at + |b|) ==> r[i] == d[i]
  {
    d[..at] + b + d[at + |b|..]
  }

  /** First byte of part p of a vector's extent. */
  function PartStart(v: Vec, p: nat): int
    decreases p, v.dest
  {
    if p == 0 then v.dest else PartStart(v, p - 1) + v.len
  }

  /** The expression of the source. */
  lemma {:induction false} PartStartIs(v: Vec, p: nat)
    ensures PartStart(v, p) == v.dest + v.len * p
  {
    if p > 0 {
      PartStartIs(v, p - 1);
      assert v.len * p == v.len * (p - 1) + v.len;
    }
  }

  /** The vector writes inside the block: the source asserts as much for the data. */
  predicate Writable(v: Vec, part: nat, size: nat) {
    && v.len >= 0 && 0 <= PartStart(v, part) && PartStart(v, part) + v.len <= size
    && (v.statusDest.To? ==> 0 <= v.statusDest.at && v.statusDest.at + STATUS_BYTES <= size)
  }

  function PutStatus(d: Bytes, at: int, part: nat, w: Word4): (r: Bytes)
    requires 0 <= at && at + STATUS_BYTES <= |d| && part < PARTS
    ensures |r| == |d|
  {
    var d1 := if part == 0 then Splice(d, at, w) else Splice(d, at, OrWord(WordAt(d, at), w));
    Splice(d1, at + 4 * (1 + part), w)
  }

  /** One vector, one part. */
  function PutVec(d: Bytes, v: Vec, part: nat, feed: Feed, zeroBad: bool): (r: Bytes)
    requires part < PARTS && Readable(v, feed) && Writable(v, part, |d|)
    ensures |r| == |d|
  {
    var d1 := Splice(d, PartStart(v, part), Slice(v, feed, zeroBad));
    if v.statusDest.To? then PutStatus(d1, v.statusDest.at, part, StatusIn(feed, v.status)) else d1
  }

  ghost predicate Possible(vs: seq<Vec>, part: nat, feed: Feed, size: nat) {
    forall a :: 0 <= a < |vs| ==> Readable(vs[a], feed) && Writable(vs[a], part, size)
  }

  /** The first k vectors of one part. */
  function PutVecs(d: Bytes, vs: seq<Vec>, k: nat, part: nat, feed: Feed, zeroBad: bool): (r: Bytes)
    requires part < PARTS && k <= |vs| && Possible(vs, part, feed, |d|)
    ensures |r| == |d|
  {
    if k == 0 then d else PutVec(PutVecs(d, vs, k - 1, part, feed, zeroBad), vs[k - 1], part, feed, zeroBad)
  }

  // ---- the source's loop ----------------------------------------------------------------------

  /** memcpy (and memset, with zeros) */
  method CopyTo(dst: array<Byte>, at: nat, src: Bytes)
    requires at + |src| <= dst.Length
    modifies dst
    ensures dst[..] == Splice(old(dst[..]), at, src)
  {
    for i := 0 to |src|
      invariant forall k :: at <= k < at + i ==> dst[k] == src[k - at]
      invariant forall k :: 0 <= k < dst.Length && !(at <= k < at + i) ==> dst[k] == old(dst[k])
    {
      dst[at + i] := src[i];
    }
    SpliceIs(old(dst[..]), at, src, dst[..]);
  }

  /** The four byte assignments of memor4. */
  method OrTo(dst: array<Byte>, at: nat, w: Word4)
    requires at + 4 <= dst.Length
    modifies dst
    ensures dst[..] == Splice(old(dst[..]), at, OrWord(WordAt(old(dst[..]), at), w))
  {
    ghost var or := OrWord(WordAt(dst[..], at), w);
    dst[at] := Or(dst[at], w[0]);
    dst[at + 1] := Or(dst[at + 1], w[1]);
    dst[at + 2] := Or(dst[at + 2], w[2]);
    dst[at + 3] := Or(dst[at + 3], w[3]);
    assert dst[at] == or[0] && dst[at + 1] == or[1] && dst[at + 2] == or[2] && dst[at + 3] == or[3];
    assert forall k :: 0 <= k < dst.Length && !(at <= k < at + 4) ==> dst[k] == old(dst[k]);
    SpliceIs(old(dst[..]), at, or, dst[..]);
  }

  lemma SpliceIs(d: Bytes, at: int, b: Bytes, r: Bytes)
    requires 0 <= at && at + |b| <= |d| && |r| == |d|
    requires Holds(r, at, b)
    requires forall k :: 0 <= k < |d| && !(at <= k < at + |b|) ==> r[k] == d[k]
    ensures r == Splice(d, at, b)
  {
  }

  /** The status words of one vector: assigned in the first part, ORed in after, and kept per part. */
  method StoreStatus(dst: array<Byte>, at: nat, part: nat, status: Word4)
    requires at + STATUS_BYTES <= dst.Length && part < PARTS
    modifies dst
    ensures dst[..] == PutStatus(old(dst[..]), at, part, status)
  {
    if part == 0 {
      CopyTo(dst, at, status);
    } else {
      OrTo(dst, at, status);
    }
    CopyTo(dst, at + 4 * (1 + part), status);
  }

  /** One turn of the copy loop. */
  method PutOne(dst: array<Byte>, v: Vec, part: nat, feed: Feed, zeroBad: bool)
    requires part < PARTS && Readable(v, feed) && Writable(v, part, dst.Length)
    modifies dst
    ensures dst[..] == PutVec(old(dst[..]), v, part, feed, zeroBad)
  {
    var status := StatusIn(feed, v.status);
    var start := v.dest + v.len * part;
    PartStartIs(v, part);
    if status != ZERO && zeroBad {
      CopyTo(dst, start, Cleared(v.len));
    } else {
      CopyTo(dst, start, feed.move[v.src..v.src + v.len]);
    }
    assert dst[..] == Splice(old(dst[..]), PartStart(v, part), Slice(v, feed, zeroBad));
    if v.statusDest.To? {
      StoreStatus(dst, v.statusDest.at, part, status);
    }
  }

  /** The copy loop of put16th_dpscattered on the block's share of the data space. */
  method PutPart(dst: array<Byte>, pv: seq<Vec>, part: nat, feed: Feed, zeroBad: bool) returns (dlen: int)
    requires part < PARTS && Possible(pv, part, feed, dst.Length)
    modifies dst
    ensures dst[..] == PutVecs(old(dst[..]), pv, |pv|, part, feed, zeroBad)
    ensures dlen == TotalLen(pv)
  {
    dlen := 0;
    for i := 0 to |pv|
      invariant dst[..] == PutVecs(old(dst[..]), pv, i, part, feed, zeroBad)
      invariant dlen == TotalLen(pv[..i])
    {
      var v := pv[i];
      assert Readable(v, feed) && Writable(v, part, dst.Length);
      PutOne(dst, v, part, feed, zeroBad);
      dlen := dlen + v.len;
      assert pv[..i + 1][..i] == pv[..i];
    }
    assert pv[..|pv|] == pv;
  }
}
