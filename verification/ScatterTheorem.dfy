/** What sixteen calls of the scatter writer leave in a block laid out by the planner. */
module ScatterTheorem {
  import opened Layout
  import opened LayoutSound
  import opened Scatter

  /** Part p of a vector lies inside its extent, and different parts do not meet. */
  lemma PartInside(v: Vec, p: nat, q: nat)
    requires v.len >= 0 && p < PARTS && q < PARTS
    ensures v.dest <= PartStart(v, p) && PartStart(v, p) + v.len <= v.dest + PARTS * v.len
    ensures p < q ==> PartStart(v, p) + v.len <= PartStart(v, q)
  {
    PartStartIs(v, p);
    PartStartIs(v, q);
    Product(p + 1, PARTS, v.len);
    assert (p + 1) * v.len == v.len * p + v.len;
    if p < q {
      Product(p + 1, q, v.len);
    }
  }

  // ---- whose bytes ------------------------------------------------------------------------------

  /** Where the status word of a part is kept; word 0 is kept for their OR. */
  function WordIndex(at: int, word: nat): int {
    at + 4 * word
  }

  /** Bytes that one vector writes in one part. */
  ghost predicate Touched(v: Vec, part: nat, i: int) {
    || PartStart(v, part) <= i < PartStart(v, part) + v.len
    || (v.statusDest.To? &&
        (v.statusDest.at <= i < v.statusDest.at + 4 ||
         WordIndex(v.statusDest.at, 1 + part) <= i < WordIndex(v.statusDest.at, 1 + part) + 4))
  }

  /** The bytes of a vector: its extent and its status words. */
  ghost predicate Owns(v: Vec, i: int) {
    v.dest <= i < v.dest + PARTS * v.len ||
    (v.statusDest.To? && v.statusDest.at <= i < v.statusDest.at + STATUS_BYTES)
  }

  /** A vector touches only bytes of its own. */
  lemma TouchesOwn(v: Vec, part: nat, i: int)
    requires v.len >= 0 && part < PARTS && Touched(v, part, i)
    ensures Owns(v, i)
  {
    PartInside(v, part, part);
  }

  /** Every byte has one owner at most, and only its owner touches it. */
  lemma Untouched(vs: seq<Vec>, split: int, size: int, a: nat, b: nat, part: nat, i: int)
    requires Separate(vs, split, size) && a < |vs| && b < |vs| && a != b && part < PARTS && Owns(vs[a], i)
    ensures !Touched(vs[b], part, i)
  {
    assert Apart(vs[a].dest, PARTS * vs[a].len, vs[b].dest, PARTS * vs[b].len);
    if Touched(vs[b], part, i) {
      TouchesOwn(vs[b], part, i);
    }
  }

  // ---- one vector, one part ---------------------------------------------------------------------

  /** Part p of a vector is in the block: its bytes and its status word. */
  ghost predicate Stored(d: Bytes, v: Vec, p: nat, feed: Feed, zeroBad: bool)
    requires Readable(v, feed)
  {
    && Holds(d, PartStart(v, p), Slice(v, feed, zeroBad))
    && (v.statusDest.To? ==> Holds(d, WordIndex(v.statusDest.at, 1 + p), StatusIn(feed, v.status)))
  }

  /** The first status word holds everything so far: d is the block before part `part`, r after. */
  ghost predicate Accumulated(r: Bytes, d: Bytes, v: Vec, part: nat, feed: Feed)
    requires Readable(v, feed)
  {
    v.statusDest.To? ==>
      var at, w := v.statusDest.at, StatusIn(feed, v.status);
      0 <= at && at + 4 <= |d| && Holds(r, at, if part == 0 then w else OrWord(WordAt(d, at), w))
  }

  /** r is d after one vector's share of one part. */
  ghost predicate VecDone(d: Bytes, r: Bytes, v: Vec, part: nat, feed: Feed, zeroBad: bool)
    requires Readable(v, feed)
  {
    && |r| == |d| && Stored(r, v, part, feed, zeroBad) && Accumulated(r, d, v, part, feed)
    && (forall i {:trigger r[i]} :: 0 <= i < |d| && !Touched(v, part, i) ==> r[i] == d[i])
  }

  /** The two status words of a part are put. */
  ghost predicate StatusPut(d: Bytes, r: Bytes, at: int, part: nat, w: Word4) {
    && |r| == |d| && 0 <= at && at + STATUS_BYTES <= |d|
    && Holds(r, at, if part == 0 then w else OrWord(WordAt(d, at), w))
    && Holds(r, WordIndex(at, 1 + part), w)
    && (forall i {:trigger r[i]} ::
          (0 <= i < |d| && !(at <= i < at + 4) && !(WordIndex(at, 1 + part) <= i < WordIndex(at, 1 + part) + 4)) ==>
          r[i] == d[i])
  }

  lemma StatusIsPut(d: Bytes, at: int, part: nat, w: Word4)
    requires 0 <= at && at + STATUS_BYTES <= |d| && part < PARTS
    ensures StatusPut(d, PutStatus(d, at, part, w), at, part, w)
  {
  }

  lemma HoldsKept(d: Bytes, r: Bytes, at: int, b: Bytes)
    requires |r| == |d| && Holds(d, at, b) && forall i :: at <= i < at + |b| ==> r[i] == d[i]
    ensures Holds(r, at, b)
  {
  }

  lemma BothDone(d: Bytes, d1: Bytes, r: Bytes, v: Vec, part: nat, feed: Feed, zeroBad: bool)
    requires part < PARTS && Readable(v, feed) && Writable(v, part, |d|) && v.statusDest.To?
    requires PartStart(v, part) + v.len <= v.statusDest.at
    requires |d1| == |d| && Holds(d1, PartStart(v, part), Slice(v, feed, zeroBad))
    requires forall i {:trigger d1[i]} ::
      0 <= i < |d| && !(PartStart(v, part) <= i < PartStart(v, part) + v.len) ==> d1[i] == d[i]
    requires StatusPut(d1, r, v.statusDest.at, part, StatusIn(feed, v.status))
    ensures VecDone(d, r, v, part, feed, zeroBad)
  {
    assert WordAt(d1, v.statusDest.at) == WordAt(d, v.statusDest.at);
    HoldsKept(d1, r, PartStart(v, part), Slice(v, feed, zeroBad));
  }

  /** The body of the source's loop, provided the vector's data and its status words do not meet. */
  lemma VecIsDone(d: Bytes, v: Vec, part: nat, feed: Feed, zeroBad: bool)
    requires part < PARTS && Readable(v, feed) && Writable(v, part, |d|)
    requires v.statusDest.To? ==> PartStart(v, part) + v.len <= v.statusDest.at
    ensures VecDone(d, PutVec(d, v, part, feed, zeroBad), v, part, feed, zeroBad)
  {
    var d1 := Splice(d, PartStart(v, part), Slice(v, feed, zeroBad));
    if v.statusDest.To? {
      StatusIsPut(d1, v.statusDest.at, part, StatusIn(feed, v.status));
      BothDone(d, d1, PutVec(d, v, part, feed, zeroBad), v, part, feed, zeroBad);
    }
  }

  // ---- all vectors, one part --------------------------------------------------------------------

  ghost predicate Untouchable(vs: seq<Vec>, k: nat, part: nat, i: int)
    requires k <= |vs|
  {
    forall a :: 0 <= a < k ==> !Touched(vs[a], part, i)
  }

  /** r is d after the first k vectors' shares of one part. */
  ghost predicate PartDone(d: Bytes, r: Bytes, vs: seq<Vec>, k: nat, part: nat, feed: Feed, zeroBad: bool)
    requires part < PARTS && k <= |vs| && Possible(vs, part, feed, |d|)
  {
    && |r| == |d|
    && (forall a :: 0 <= a < k ==> Stored(r, vs[a], part, feed, zeroBad) && Accumulated(r, d, vs[a], part, feed))
    && (forall i {:trigger r[i]} :: 0 <= i < |d| && Untouchable(vs, k, part, i) ==> r[i] == d[i])
  }

  /** A later vector leaves the share of an earlier one alone. */
  lemma ShareKept(d: Bytes, e: Bytes, r: Bytes, vs: seq<Vec>, split: int, a: nat, k: nat, part: nat,
                  feed: Feed, zeroBad: bool)
    requires Separate(vs, split, |d|) && part < PARTS && Possible(vs, part, feed, |d|) && a < k < |vs| && |e| == |d|
    requires Stored(e, vs[a], part, feed, zeroBad) && Accumulated(e, d, vs[a], part, feed)
    requires VecDone(e, r, vs[k], part, feed, zeroBad)
    ensures Stored(r, vs[a], part, feed, zeroBad) && Accumulated(r, d, vs[a], part, feed)
  {
    var v := vs[a];
    PartInside(v, part, part);
    forall i | 0 <= i < |d| && Owns(v, i) ensures r[i] == e[i] {
      Untouched(vs, split, |d|, a, k, part, i);
    }
    HoldsKept(e, r, PartStart(v, part), Slice(v, feed, zeroBad));
    if v.statusDest.To? {
      HoldsKept(e, r, WordIndex(v.statusDest.at, 1 + part), StatusIn(feed, v.status));
      var w := StatusIn(feed, v.status);
      HoldsKept(e, r, v.statusDest.at, if part == 0 then w else OrWord(WordAt(d, v.statusDest.at), w));
    }
  }

  /** The vector whose turn it is finds its status words as they were before the part. */
  lemma ShareAdded(d: Bytes, e: Bytes, r: Bytes, vs: seq<Vec>, split: int, k: nat, part: nat, feed: Feed, zeroBad: bool)
    requires Separate(vs, split, |d|) && part < PARTS && Possible(vs, part, feed, |d|) && k < |vs|
    requires PartDone(d, e, vs, k, part, feed, zeroBad) && VecDone(e, r, vs[k], part, feed, zeroBad)
    ensures Stored(r, vs[k], part, feed, zeroBad) && Accumulated(r, d, vs[k], part, feed)
  {
    var v := vs[k];
    if v.statusDest.To? {
      forall i | v.statusDest.at <= i < v.statusDest.at + 4 ensures e[i] == d[i] {
        forall b | 0 <= b < k ensures !Touched(vs[b], part, i) {
          Untouched(vs, split, |d|, k, b, part, i);
        }
        assert Untouchable(vs, k, part, i);
      }
      assert WordAt(e, v.statusDest.at) == WordAt(d, v.statusDest.at);
    }
  }

  lemma PartStep(d: Bytes, e: Bytes, r: Bytes, vs: seq<Vec>, split: int, k: nat, part: nat, feed: Feed, zeroBad: bool)
    requires Separate(vs, split, |d|) && part < PARTS && Possible(vs, part, feed, |d|) && k < |vs|
    requires PartDone(d, e, vs, k, part, feed, zeroBad) && VecDone(e, r, vs[k], part, feed, zeroBad)
    ensures PartDone(d, r, vs, k + 1, part, feed, zeroBad)
  {
    forall a | 0 <= a < k + 1
      ensures Stored(r, vs[a], part, feed, zeroBad) && Accumulated(r, d, vs[a], part, feed)
    {
      if a < k {
        ShareKept(d, e, r, vs, split, a, k, part, feed, zeroBad);
      } else {
        ShareAdded(d, e, r, vs, split, k, part, feed, zeroBad);
      }
    }
    forall i | 0 <= i < |d| && Untouchable(vs, k + 1, part, i) ensures r[i] == d[i] {
      assert Untouchable(vs, k, part, i) && !Touched(vs[k], part, i);
      assert e[i] == d[i];
    }
  }

  /** One turn of the source's loop. */
  lemma VecTurn(d: Bytes, vs: seq<Vec>, split: int, k: nat, part: nat, feed: Feed, zeroBad: bool)
    requires Separate(vs, split, |d|) && part < PARTS && Possible(vs, part, feed, |d|) && k < |vs|
    ensures VecDone(PutVecs(d, vs, k, part, feed, zeroBad), PutVecs(d, vs, k + 1, part, feed, zeroBad),
                    vs[k], part, feed, zeroBad)
  {
    PartInside(vs[k], part, part);
    VecIsDone(PutVecs(d, vs, k, part, feed, zeroBad), vs[k], part, feed, zeroBad);
  }

  /** Turn j takes the block from trace[j] to trace[j + 1]. */
  ghost predicate Turn(trace: seq<Bytes>, vs: seq<Vec>, j: nat, part: nat, feed: Feed, zeroBad: bool) {
    && j < |vs| && |trace| == |vs| + 1 && Readable(vs[j], feed)
    && VecDone(trace[j], trace[j + 1], vs[j], part, feed, zeroBad)
  }

  lemma {:induction false} TraceDoesPart(d: Bytes, trace: seq<Bytes>, vs: seq<Vec>, split: int, k: nat, part: nat,
                                         feed: Feed, zeroBad: bool)
    requires Separate(vs, split, |d|) && part < PARTS && Possible(vs, part, feed, |d|) && k <= |vs|
    requires |trace| == |vs| + 1 && trace[0] == d
    requires forall j :: 0 <= j < k ==> Turn(trace, vs, j, part, feed, zeroBad)
    ensures PartDone(d, trace[k], vs, k, part, feed, zeroBad)
    decreases k
  {
    if k > 0 {
      var j: nat := k - 1;
      TraceDoesPart(d, trace, vs, split, j, part, feed, zeroBad);
      assert Turn(trace, vs, j, part, feed, zeroBad);
      PartStep(d, trace[j], trace[j + 1], vs, split, j, part, feed, zeroBad);
    }
  }

  function Trace(d: Bytes, vs: seq<Vec>, part: nat, feed: Feed, zeroBad: bool): (trace: seq<Bytes>)
    requires part < PARTS && Possible(vs, part, feed, |d|)
    ensures |trace| == |vs| + 1
    ensures forall k :: 0 <= k <= |vs| ==> trace[k] == PutVecs(d, vs, k, part, feed, zeroBad)
  {
    seq(|vs| + 1, k requires 0 <= k <= |vs| => PutVecs(d, vs, k, part, feed, zeroBad))
  }

  lemma TraceTurn(d: Bytes, vs: seq<Vec>, split: int, k: nat, part: nat, feed: Feed, zeroBad: bool)
    requires Separate(vs, split, |d|) && part < PARTS && Possible(vs, part, feed, |d|) && k < |vs|
    ensures Turn(Trace(d, vs, part, feed, zeroBad), vs, k, part, feed, zeroBad)
  {
    VecTurn(d, vs, split, k, part, feed, zeroBad);
  }

  /** The source's loop does a part. */
  lemma LoopDoesPart(d: Bytes, vs: seq<Vec>, split: int, part: nat, feed: Feed, zeroBad: bool)
    requires Separate(vs, split, |d|) && part < PARTS && Possible(vs, part, feed, |d|)
    ensures PartDone(d, PutVecs(d, vs, |vs|, part, feed, zeroBad), vs, |vs|, part, feed, zeroBad)
  {
    forall k | 0 <= k < |vs| ensures Turn(Trace(d, vs, part, feed, zeroBad), vs, k, part, feed, zeroBad) {
      TraceTurn(d, vs, split, k, part, feed, zeroBad);
    }
    TraceDoesPart(d, Trace(d, vs, part, feed, zeroBad), vs, split, |vs|, part, feed, zeroBad);
  }

  // ---- sixteen parts ----------------------------------------------------------------------------

  ghost predicate AllPossible(vs: seq<Vec>, feeds: seq<Feed>, size: nat) {
    |feeds| <= PARTS && forall p :: 0 <= p < |feeds| ==> Possible(vs, p, feeds[p], size)
  }

  /** The successive states of a block that is filled part by part. */
  ghost predicate Filling(blocks: seq<Bytes>, vs: seq<Vec>, feeds: seq<Feed>, zeroBad: bool) {
    && |blocks| == |feeds| + 1 && AllPossible(vs, feeds, |blocks[0]|)
    && (forall p :: 0 <= p < |blocks| ==> |blocks[p]| == |blocks[0]|)
    && (forall p :: 0 <= p < |feeds| ==>
          Possible(vs, p, feeds[p], |blocks[p]|) &&
          blocks[p + 1] == PutVecs(blocks[p], vs, |vs|, p, feeds[p], zeroBad))
  }

  ghost predicate AllReadable(v: Vec, feeds: seq<Feed>) {
    forall p :: 0 <= p < |feeds| ==> Readable(v, feeds[p])
  }

  /** The OR of the status words of the first n parts. */
  function OrOf(v: Vec, feeds: seq<Feed>, n: nat): Word4
    requires 0 < n <= |feeds| && AllReadable(v, feeds)
  {
    assert Readable(v, feeds[0]) && Readable(v, feeds[n - 1]);
    if n == 1 then StatusIn(feeds[0], v.status)
    else OrWord(OrOf(v, feeds, n - 1), StatusIn(feeds[n - 1], v.status))
  }

  /** The slices of the first n parts one after the other. */
  function Joined(v: Vec, feeds: seq<Feed>, n: nat, zeroBad: bool): Bytes
    requires n <= |feeds| && AllReadable(v, feeds)
  {
    if n == 0 then [] else Joined(v, feeds, n - 1, zeroBad) + Slice(v, feeds[n - 1], zeroBad)
  }

  /** Every part so far is in place, and the first status word is the OR of the others. */
  ghost predicate Gathered(d: Bytes, v: Vec, feeds: seq<Feed>, n: nat, zeroBad: bool)
    requires AllReadable(v, feeds) && n <= |feeds|
  {
    && (forall p :: 0 <= p < n ==> Stored(d, v, p, feeds[p], zeroBad))
    && (n > 0 && v.statusDest.To? ==> Holds(d, v.statusDest.at, OrOf(v, feeds, n)))
  }

  lemma FillingStep(blocks: seq<Bytes>, vs: seq<Vec>, split: int, feeds: seq<Feed>, p: nat, zeroBad: bool)
    requires Filling(blocks, vs, feeds, zeroBad) && Separate(vs, split, |blocks[0]|) && p < |feeds|
    ensures p < PARTS && Possible(vs, p, feeds[p], |blocks[p]|)
    ensures PartDone(blocks[p], blocks[p + 1], vs, |vs|, p, feeds[p], zeroBad)
  {
    LoopDoesPart(blocks[p], vs, split, p, feeds[p], zeroBad);
  }

  /** What an earlier part left of a vector stays. */
  lemma EarlierKept(d: Bytes, r: Bytes, vs: seq<Vec>, split: int, a: nat, p: nat, was: Feed,
                    part: nat, feed: Feed, zeroBad: bool)
    requires Separate(vs, split, |d|) && p < part < PARTS && Possible(vs, part, feed, |d|) && a < |vs|
    requires PartDone(d, r, vs, |vs|, part, feed, zeroBad)
    requires Readable(vs[a], was) && Stored(d, vs[a], p, was, zeroBad)
    ensures Stored(r, vs[a], p, was, zeroBad)
  {
    var v := vs[a];
    PartInside(v, p, part);
    PartInside(v, part, part);
    forall i | 0 <= i < |d| && Owns(v, i) && !Touched(v, part, i) ensures r[i] == d[i] {
      forall b | 0 <= b < |vs| ensures !Touched(vs[b], part, i) {
        if b != a {
          Untouched(vs, split, |d|, a, b, part, i);
        }
      }
      assert Untouchable(vs, |vs|, part, i);
    }
    HoldsKept(d, r, PartStart(v, p), Slice(v, was, zeroBad));
    if v.statusDest.To? {
      HoldsKept(d, r, WordIndex(v.statusDest.at, 1 + p), StatusIn(was, v.status));
    }
  }

  lemma GatherStep(d: Bytes, r: Bytes, v: Vec, feeds: seq<Feed>, n: nat, zeroBad: bool)
    requires AllReadable(v, feeds) && n < |feeds| && Gathered(d, v, feeds, n, zeroBad)
    requires Stored(r, v, n, feeds[n], zeroBad) && Accumulated(r, d, v, n, feeds[n])
    requires forall p :: 0 <= p < n ==> Stored(r, v, p, feeds[p], zeroBad)
    ensures Gathered(r, v, feeds, n + 1, zeroBad)
  {
    if n > 0 && v.statusDest.To? {
      var at := v.statusDest.at;
      assert d[at] == OrOf(v, feeds, n)[0] && d[at + 1] == OrOf(v, feeds, n)[1];
      assert d[at + 2] == OrOf(v, feeds, n)[2] && d[at + 3] == OrOf(v, feeds, n)[3];
      assert WordAt(d, at) == OrOf(v, feeds, n);
    }
  }

  lemma OfVec(vs: seq<Vec>, feeds: seq<Feed>, size: nat, a: nat)
    requires AllPossible(vs, feeds, size) && a < |vs|
    ensures AllReadable(vs[a], feeds)
  {
    forall p | 0 <= p < |feeds| ensures Readable(vs[a], feeds[p]) {
      assert Possible(vs, p, feeds[p], size);
    }
  }

  lemma {:induction false} PartsGather(blocks: seq<Bytes>, vs: seq<Vec>, split: int, feeds: seq<Feed>, n: nat, a: nat,
                                       zeroBad: bool)
    requires Filling(blocks, vs, feeds, zeroBad) && Separate(vs, split, |blocks[0]|) && n <= |feeds| && a < |vs|
    ensures AllReadable(vs[a], feeds)
    ensures Gathered(blocks[n], vs[a], feeds, n, zeroBad)
    decreases n
  {
    OfVec(vs, feeds, |blocks[0]|, a);
    if n > 0 {
      var part := n - 1;
      PartsGather(blocks, vs, split, feeds, part, a, zeroBad);
      FillingStep(blocks, vs, split, feeds, part, zeroBad);
      forall p | 0 <= p < part ensures Stored(blocks[n], vs[a], p, feeds[p], zeroBad) {
        EarlierKept(blocks[part], blocks[n], vs, split, a, p, feeds[p], part, feeds[part], zeroBad);
      }
      GatherStep(blocks[part], blocks[n], vs[a], feeds, part, zeroBad);
    }
  }

  /** The parts of a vector, read in a row, are its slices in a row. */
  lemma {:induction false} ExtentIsJoined(d: Bytes, v: Vec, feeds: seq<Feed>, n: nat, zeroBad: bool)
    requires AllReadable(v, feeds) && n <= |feeds| && 0 <= v.len && 0 <= v.dest <= |d|
    requires forall p :: 0 <= p < n ==> Stored(d, v, p, feeds[p], zeroBad)
    ensures Holds(d, v.dest, Joined(v, feeds, n, zeroBad))
    ensures v.dest + |Joined(v, feeds, n, zeroBad)| == PartStart(v, n)
    decreases n
  {
    if n > 0 {
      ExtentIsJoined(d, v, feeds, n - 1, zeroBad);
      assert Stored(d, v, n - 1, feeds[n - 1], zeroBad);
    }
  }

  lemma HoldsIsSlice(d: Bytes, at: int, b: Bytes)
    requires Holds(d, at, b)
    ensures d[at..at + |b|] == b
  {
  }

  /** The status words of the parts so far. */
  lemma WordsGathered(d: Bytes, v: Vec, feeds: seq<Feed>, n: nat, zeroBad: bool)
    requires AllReadable(v, feeds) && n <= |feeds| && Gathered(d, v, feeds, n, zeroBad) && v.statusDest.To?
    ensures forall p :: 0 <= p < n ==> Holds(d, WordIndex(v.statusDest.at, 1 + p), StatusIn(feeds[p], v.status))
  {
    forall p | 0 <= p < n ensures Holds(d, WordIndex(v.statusDest.at, 1 + p), StatusIn(feeds[p], v.status)) {
      assert Stored(d, v, p, feeds[p], zeroBad);
    }
  }

  /** A block filled by sixteen calls: every vector's extent is its sixteen slices in a row, its status
      words are the sixteen statuses, and the first status word is their OR. */
  lemma SixteenParts(blocks: seq<Bytes>, vs: seq<Vec>, split: int, feeds: seq<Feed>, a: nat, zeroBad: bool)
    requires Filling(blocks, vs, feeds, zeroBad) && Separate(vs, split, |blocks[0]|)
    requires |feeds| == PARTS && a < |vs| && split <= |blocks[0]|
    ensures AllReadable(vs[a], feeds)
    ensures var v, d := vs[a], blocks[PARTS];
      && |Joined(v, feeds, PARTS, zeroBad)| == PARTS * v.len
      && v.dest + PARTS * v.len <= |d|
      && d[v.dest..v.dest + PARTS * v.len] == Joined(v, feeds, PARTS, zeroBad)
      && (v.statusDest.To? ==> Holds(d, v.statusDest.at, OrOf(v, feeds, PARTS)))
    ensures vs[a].statusDest.To? ==> forall p :: 0 <= p < PARTS ==>
      Holds(blocks[PARTS], WordIndex(vs[a].statusDest.at, 1 + p), StatusIn(feeds[p], vs[a].status))
  {
    PartsGather(blocks, vs, split, feeds, PARTS, a, zeroBad);
    PartStartIs(vs[a], PARTS);
    ExtentIsJoined(blocks[PARTS], vs[a], feeds, PARTS, zeroBad);
    HoldsIsSlice(blocks[PARTS], vs[a].dest, Joined(vs[a], feeds, PARTS, zeroBad));
    if vs[a].statusDest.To? {
      WordsGathered(blocks[PARTS], vs[a], feeds, PARTS, zeroBad);
    }
  }

  /** A byte of no vector is left as it was. */
  lemma {:induction false} OutsideKept(blocks: seq<Bytes>, vs: seq<Vec>, split: int, feeds: seq<Feed>, n: nat,
                                       zeroBad: bool, i: nat)
    requires Filling(blocks, vs, feeds, zeroBad) && Separate(vs, split, |blocks[0]|) && n <= |feeds|
    requires i < |blocks[0]| && forall a :: 0 <= a < |vs| ==> !Owns(vs[a], i)
    ensures |blocks[n]| == |blocks[0]| && blocks[n][i] == blocks[0][i]
    decreases n
  {
    if n > 0 {
      OutsideKept(blocks, vs, split, feeds, n - 1, zeroBad, i);
      FillingStep(blocks, vs, split, feeds, n - 1, zeroBad);
      forall a | 0 <= a < |vs| ensures !Touched(vs[a], n - 1, i) {
        if Touched(vs[a], n - 1, i) {
          TouchesOwn(vs[a], n - 1, i);
        }
      }
      assert Untouchable(vs, |vs|, n - 1, i);
    }
  }

  // ---- byte for byte ----------------------------------------------------------------------------

  /** Some byte of a status word is not zero. */
  ghost predicate IsSet(w: Word4) {
    exists b :: 0 <= b < 4 && w[b] != NUL
  }

  lemma ZeroIsUnset(w: Word4)
    ensures w == ZERO <==> !IsSet(w)
  {
    if !IsSet(w) {
      assert forall b :: 0 <= b < 4 ==> w[b] == ZERO[b];
    }
  }

  /** What a part leaves of byte x of a vector: the byte of the move buffer, or nothing if bad data is to be zeroed
      and some byte of the status word is set. */
  lemma StoredByte(d: Bytes, v: Vec, p: nat, feed: Feed, zeroBad: bool, x: nat)
    requires Readable(v, feed) && Stored(d, v, p, feed, zeroBad) && x < v.len
    ensures 0 <= PartStart(v, p) + x < |d|
    ensures d[PartStart(v, p) + x] == if zeroBad && IsSet(StatusIn(feed, v.status)) then NUL else feed.move[v.src + x]
  {
    SliceByte(v, feed, zeroBad, x);
    assert d[PartStart(v, p) + x] == Slice(v, feed, zeroBad)[x];
  }

  /** Where a slice is among the slices in a row. */
  lemma {:induction false} JoinedAt(v: Vec, feeds: seq<Feed>, n: nat, zeroBad: bool, p: nat, x: nat)
    requires n <= |feeds| && AllReadable(v, feeds) && p < n && x < v.len
    ensures |Joined(v, feeds, n, zeroBad)| == PartStart(v, n) - v.dest
    ensures 0 <= PartStart(v, p) - v.dest + x < |Joined(v, feeds, n, zeroBad)|
    ensures Joined(v, feeds, n, zeroBad)[PartStart(v, p) - v.dest + x] == Slice(v, feeds[p], zeroBad)[x]
    decreases n
  {
    var m: nat := n - 1;
    JoinedLength(v, feeds, m, zeroBad);
    if p < m {
      JoinedAt(v, feeds, m, zeroBad, p, x);
    }
  }

  lemma {:induction false} JoinedLength(v: Vec, feeds: seq<Feed>, n: nat, zeroBad: bool)
    requires n <= |feeds| && AllReadable(v, feeds)
    ensures |Joined(v, feeds, n, zeroBad)| == PartStart(v, n) - v.dest
    ensures v.len >= 0 ==> PartStart(v, n) >= v.dest
  {
    if n > 0 {
      JoinedLength(v, feeds, n - 1, zeroBad);
    }
  }

  lemma SliceByte(v: Vec, feed: Feed, zeroBad: bool, x: nat)
    requires Readable(v, feed) && x < v.len
    ensures Slice(v, feed, zeroBad)[x] ==
            if zeroBad && IsSet(StatusIn(feed, v.status)) then NUL else feed.move[v.src + x]
  {
    ZeroIsUnset(StatusIn(feed, v.status));
  }

  /** ... and so where a byte of it is. */
  lemma JoinedByte(v: Vec, feeds: seq<Feed>, n: nat, zeroBad: bool, p: nat, x: nat)
    requires n <= |feeds| && AllReadable(v, feeds) && p < n && x < v.len
    ensures 0 <= v.len * p + x < |Joined(v, feeds, n, zeroBad)|
    ensures Joined(v, feeds, n, zeroBad)[v.len * p + x] ==
            if zeroBad && IsSet(StatusIn(feeds[p], v.status)) then NUL else feeds[p].move[v.src + x]
  {
    PartStartIs(v, p);
    JoinedAt(v, feeds, n, zeroBad, p, x);
    SliceByte(v, feeds[p], zeroBad, x);
  }

  // ---- with the planned vectors -----------------------------------------------------------------

  /** A sixteenth of a second brings a move buffer of the planned size. */
  ghost predicate Suits(feed: Feed, site: Site, chans: seq<Channel>) {
    |feed.move| == MoveBuffer(site, chans)
  }

  /** The planned vectors never get into each other's way, and every access of the writer is inside
      its buffer: the assertion in the source holds. */
  lemma PlanIsSafe(site: Site, chans: seq<Channel>, part: nat, feed: Feed, size: nat)
    requires Ready(site, chans) && part < PARTS && Suits(feed, site, chans) && BlockSize(site, chans) <= size
    ensures Separate(CopyPlan(site, chans), StatusStart(site, chans), size)
    ensures Possible(CopyPlan(site, chans), part, feed, size)
  {
    var vs := CopyPlan(site, chans);
    LayoutSoundness(site, chans);
    MoveBufferCovers(site, chans);
    forall a | 0 <= a < |vs| ensures Readable(vs[a], feed) && Writable(vs[a], part, size) {
      PartInside(vs[a], part, part);
    }
  }

  /** A vector of the plan after sixteen calls. */
  ghost predicate Complete(d: Bytes, v: Vec, feeds: seq<Feed>, zeroBad: bool) {
    && |feeds| == PARTS && AllReadable(v, feeds)
    && |Joined(v, feeds, PARTS, zeroBad)| == PARTS * v.len
    && Holds(d, v.dest, Joined(v, feeds, PARTS, zeroBad))
    && (v.statusDest.To? ==> Holds(d, v.statusDest.at, OrOf(v, feeds, PARTS)))
  }

  lemma VectorComplete(blocks: seq<Bytes>, vs: seq<Vec>, split: int, feeds: seq<Feed>, v: Vec, zeroBad: bool)
    requires Filling(blocks, vs, feeds, zeroBad) && Separate(vs, split, |blocks[0]|)
    requires |feeds| == PARTS && v in vs && split <= |blocks[0]|
    ensures Complete(blocks[PARTS], v, feeds, zeroBad)
  {
    var a :| 0 <= a < |vs| && vs[a] == v;
    PartsGather(blocks, vs, split, feeds, PARTS, a, zeroBad);
    PartStartIs(v, PARTS);
    ExtentIsJoined(blocks[PARTS], v, feeds, PARTS, zeroBad);
  }

  /** After sixteen calls with the planned vectors, the place the planner gave a channel holds its
      sixteen slices in order, and its first status word the OR of the sixteen statuses. */
  lemma ChannelGathered(site: Site, chans: seq<Channel>, i: nat, blocks: seq<Bytes>, feeds: seq<Feed>, zeroBad: bool)
    requires Ready(site, chans) && i < |chans| && !chans[i].alias && |feeds| == PARTS
    requires |blocks| == PARTS + 1 && BlockSize(site, chans) <= |blocks[0]|
    requires forall p :: 0 <= p < PARTS ==> Suits(feeds[p], site, chans)
    requires Filling(blocks, CopyPlan(site, chans), feeds, zeroBad)
    ensures Complete(blocks[PARTS], ChannelVec(site, chans, Final(site, chans), i), feeds, zeroBad)
  {
    PlanIsSafe(site, chans, 0, feeds[0], |blocks[0]|);
    ChannelIsPlanned(site, chans, i, |chans|);
    VectorComplete(blocks, CopyPlan(site, chans), StatusStart(site, chans), feeds,
                   ChannelVec(site, chans, Final(site, chans), i), zeroBad);
  }
}
