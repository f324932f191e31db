/** The time ranges of a directory of frame files: a chain of blocks of up to ten ranges, newest block
    first, each range a run of contiguous files of one length. */
module TimeRanges {
  import opened Ring

  const MAX_RANGES: nat := 10

  /** A saved file: its first second and its length in seconds. */
  datatype File = File(gps: int, secs: int) {
    function End(): int { gps + secs }
    predicate Covers(t: int) { gps <= t < gps + secs }
  }

  /** One entry of range_block::d; max is the second after the last. */
  datatype Range = Range(secs: int, min: int, max: int) {
    predicate Hit(t: int) { min <= t < max }
  }

  type Block = seq<Range>

  ghost predicate Blocks(chain: seq<Block>) {
    forall i :: 0 <= i < |chain| ==> 0 < |chain[i]| <= MAX_RANGES
  }

  function NewRange(f: File): Range {
    Range(f.secs, f.gps, f.gps + f.secs)
  }

  /** The current range: the last of the first block. */
  function Current(chain: seq<Block>): Range
    requires chain != [] && Blocks(chain)
  {
    chain[0][|chain[0]| - 1]
  }

  function SetCurrent(chain: seq<Block>, r: Range): seq<Block>
    requires chain != [] && Blocks(chain)
  {
    chain[0 := chain[0][|chain[0]| - 1 := r]]
  }

  /** A range started after the current one. */
  function StartRange(chain: seq<Block>, r: Range): (c: seq<Block>)
    requires Blocks(chain)
    ensures Blocks(c) && c != [] && Current(c) == r
  {
    if chain == [] || |chain[0]| >= MAX_RANGES then [[r]] + chain else chain[0 := chain[0] + [r]]
  }

  /** What one more file does to the chain. */
  function AddFile(chain: seq<Block>, f: File): (c: seq<Block>)
    requires Blocks(chain)
    ensures Blocks(c) && c != []
  {
    if chain != [] && Current(chain).max == f.gps then
      SetCurrent(chain, Current(chain).(max := Current(chain).max + Current(chain).secs))
    else StartRange(chain, NewRange(f))
  }

  /** The chain left by files saved one after the other. */
  function Chain(files: seq<File>): (c: seq<Block>)
    ensures Blocks(c) && (c == [] <==> files == [])
  {
    if files == [] then [] else AddFile(Chain(files[..|files| - 1]), files[|files| - 1])
  }

  /** Blocks are filled up before another is started: all but the newest have ten ranges. */
  lemma {:induction false} BlocksFull(files: seq<File>)
    ensures forall i :: 0 < i < |Chain(files)| ==> |Chain(files)[i]| == 10
  {
    if files != [] {
      var front := files[..|files| - 1];
      BlocksFull(front);
      var c: seq<Block>, chain: seq<Block> := Chain(files), Chain(front);
      forall i | 0 < i < |c| ensures |c[i]| == 10 {
        assert |c| == |chain| ==> c[i] == chain[i];
        assert |c| != |chain| ==> c[i] == chain[i - 1];
      }
    }
  }

  /** Files follow one another without overlap. */
  ghost predicate Ordered(files: seq<File>) {
    && (forall k :: 0 <= k < |files| ==> files[k].secs > 0)
    && (forall k :: 0 < k < |files| ==> files[k - 1].End() <= files[k].gps)
  }

  /** ... and those that touch have the same length. */
  ghost predicate Steady(files: seq<File>) {
    && Ordered(files)
    && (forall k :: 0 < k < |files| && files[k - 1].End() == files[k].gps ==> files[k - 1].secs == files[k].secs)
  }

  /** The start of the file that second t of a range falls into. */
  function StartOf(r: Range, t: int): int
    requires r.secs > 0
  {
    r.min + (t - r.min) / r.secs * r.secs
  }

  /** A range is a whole number of files long. */
  ghost predicate WholeRange(r: Range) {
    r.secs > 0 && exists n: nat :: n > 0 && r.max == r.min + n * r.secs
  }

  lemma LastFile(r: Range, t: int)
    requires WholeRange(r) && r.max <= t < r.max + r.secs
    ensures StartOf(r, t) == r.max
    ensures WholeRange(r.(max := r.max + r.secs))
  {
    var n: nat :| n > 0 && r.max == r.min + n * r.secs;
    var d := t - r.min;
    assert d == n * r.secs + (t - r.max);
    DivUnique(d, n, t - r.max, r.secs);
    assert r.max + r.secs == r.min + (n + 1) * r.secs;
  }

  lemma DivUnique(x: int, q: int, r: int, s: int)
    requires s > 0 && x == q * s + r && 0 <= r < s
    ensures x / s == q
  {
    var d := x / s - q;
    assert d * s == r - x % s by {
      assert x == (x / s) * s + x % s;
      assert (q + d) * s == q * s + d * s;
    }
    MulSign(d, s);
  }

  /** Everything the lookup needs to know about the ranges of a run of files. */
  ghost predicate RangesOk(chain: seq<Block>, files: seq<File>)
    requires Blocks(chain)
  {
    && (forall i, j :: 0 <= i < |chain| && 0 <= j < |chain[i]| ==> WholeRange(chain[i][j]))
    && (forall i, j, t {:trigger chain[i][j].Hit(t)} ::
          0 <= i < |chain| && 0 <= j < |chain[i]| && chain[i][j].Hit(t) ==>
          FileOf(files, StartOf(chain[i][j], t), chain[i][j].secs, t))
    && (forall k, t {:trigger files[k].Covers(t)} :: 0 <= k < |files| && files[k].Covers(t) ==> SomeHit(chain, t))
  }

  ghost predicate FileOf(files: seq<File>, gps: int, secs: int, t: int) {
    exists k :: 0 <= k < |files| && files[k] == File(gps, secs) && files[k].Covers(t)
  }

  ghost predicate SomeHit(chain: seq<Block>, t: int) {
    exists i, j :: 0 <= i < |chain| && 0 <= j < |chain[i]| && chain[i][j].Hit(t)
  }

  /** The ranges of a steady run of files cover exactly the seconds of the files, and give back for
      each second the start and the length of the file that covers it. */
  lemma {:induction false} ChainAgrees(files: seq<File>)
    requires Steady(files)
    ensures RangesOk(Chain(files), files)
    ensures files != [] ==>
      Current(Chain(files)).max == files[|files| - 1].End() && Current(Chain(files)).secs == files[|files| - 1].secs
  {
    if files != [] {
      var n := |files| - 1;
      var front, f := files[..n], files[n];
      ChainAgrees(front);
      if front != [] && Current(Chain(front)).max == f.gps {
        Extended(Chain(front), front, f);
      } else {
        Started(Chain(front), front, f);
      }
      assert files == front + [f];
    }
  }

  lemma FileOfGrows(front: seq<File>, f: File, gps: int, secs: int, t: int)
    ensures FileOf(front, gps, secs, t) ==> FileOf(front + [f], gps, secs, t)
  {
    if FileOf(front, gps, secs, t) {
      var k :| 0 <= k < |front| && front[k] == File(gps, secs) && front[k].Covers(t);
      assert (front + [f])[k] == front[k];
    }
  }

  lemma Extended(chain: seq<Block>, front: seq<File>, f: File)
    requires Blocks(chain) && chain != [] && RangesOk(chain, front)
    requires Current(chain).max == f.gps && Current(chain).secs == f.secs
    ensures RangesOk(AddFile(chain, f), front + [f])
  {
    var files := front + [f];
    var last := |chain[0]| - 1;
    var r := Current(chain);
    var r' := r.(max := r.max + r.secs);
    var c: seq<Block> := AddFile(chain, f);
    assert c[0][last] == r';
    LastFile(r, r.max);
    forall i, j, t | 0 <= i < |c| && 0 <= j < |c[i]| && c[i][j].Hit(t)
      ensures FileOf(files, StartOf(c[i][j], t), c[i][j].secs, t)
    {
      if i == 0 && j == last && t >= r.max {
        LastFile(r, t);
        assert files[|front|] == f;
      } else {
        assert chain[i][j].Hit(t);
        FileOfGrows(front, f, StartOf(chain[i][j], t), chain[i][j].secs, t);
      }
    }
    forall k, t | 0 <= k < |files| && files[k].Covers(t) ensures SomeHit(c, t) {
      if k < |front| {
        assert front[k].Covers(t);
        var i, j :| 0 <= i < |chain| && 0 <= j < |chain[i]| && chain[i][j].Hit(t);
        assert c[i][j].Hit(t);
      } else {
        assert c[0][last].Hit(t);
      }
    }
  }

  /** How far starting a range moves the old blocks back. */
  function Back(chain: seq<Block>): nat
    requires Blocks(chain)
  {
    if chain == [] || |chain[0]| >= MAX_RANGES then 1 else 0
  }

  lemma StartRangeKeeps(chain: seq<Block>, r: Range, i: nat, j: nat)
    requires Blocks(chain) && i < |chain| && j < |chain[i]|
    ensures var c := StartRange(chain, r);
      i + Back(chain) < |c| && j < |c[i + Back(chain)]| && c[i + Back(chain)][j] == chain[i][j]
  {
  }

  lemma StartRangeAdds(chain: seq<Block>, r: Range, i: nat, j: nat)
    requires Blocks(chain) && i < |StartRange(chain, r)| && j < |StartRange(chain, r)[i]|
    requires StartRange(chain, r)[i][j] != r
    ensures i >= Back(chain) && i - Back(chain) < |chain| && j < |chain[i - Back(chain)]|
    ensures StartRange(chain, r)[i][j] == chain[i - Back(chain)][j]
  {
  }

  lemma Started(chain: seq<Block>, front: seq<File>, f: File)
    requires Blocks(chain) && RangesOk(chain, front) && f.secs > 0
    requires chain == [] || Current(chain).max != f.gps
    ensures RangesOk(AddFile(chain, f), front + [f])
  {
    var files := front + [f];
    var r := NewRange(f);
    var c: seq<Block> := StartRange(chain, r);
    assert forall i: nat, j: nat :: i < |c| && j < |c[i]| && c[i][j] != r ==> WholeRange(c[i][j]) by {
      forall i: nat, j: nat | i < |c| && j < |c[i]| && c[i][j] != r ensures WholeRange(c[i][j]) {
        StartRangeAdds(chain, r, i, j);
      }
    }
    assert WholeRange(r) by {
      assert r.max == r.min + 1 * r.secs;
    }
    forall i, j, t | 0 <= i < |c| && 0 <= j < |c[i]| && c[i][j].Hit(t)
      ensures FileOf(files, StartOf(c[i][j], t), c[i][j].secs, t)
    {
      if c[i][j] == r {
        DivUnique(t - r.min, 0, t - r.min, r.secs);
        assert files[|front|] == f;
      } else {
        StartRangeAdds(chain, r, i, j);
        var i0 := i - Back(chain);
        assert chain[i0][j].Hit(t);
        FileOfGrows(front, f, StartOf(chain[i0][j], t), chain[i0][j].secs, t);
      }
    }
    forall k, t | 0 <= k < |files| && files[k].Covers(t) ensures SomeHit(c, t) {
      if k < |front| {
        assert front[k].Covers(t);
        var i, j :| 0 <= i < |chain| && 0 <= j < |chain[i]| && chain[i][j].Hit(t);
        StartRangeKeeps(chain, r, i, j);
        assert c[i + Back(chain)][j].Hit(t);
      } else {
        assert Current(c).Hit(t);
      }
    }
  }

  // ---- exactly when the ranges agree with the files ----------------------------------------

  /** The ranges answer every second as the files would. */
  ghost predicate Agrees(chain: seq<Block>, files: seq<File>) {
    && (forall i, j, t {:trigger chain[i][j].Hit(t)} ::
          0 <= i < |chain| && 0 <= j < |chain[i]| && chain[i][j].Hit(t) ==>
          chain[i][j].secs > 0 && FileOf(files, StartOf(chain[i][j], t), chain[i][j].secs, t))
    && (forall k, t {:trigger files[k].Covers(t)} :: 0 <= k < |files| && files[k].Covers(t) ==> SomeHit(chain, t))
  }

  lemma {:induction false} OrderedApart(files: seq<File>, a: nat, b: nat)
    requires Ordered(files) && a < b < |files|
    ensures files[a].End() <= files[b].gps
    decreases b
  {
    if a < b - 1 {
      OrderedApart(files, a, b - 1);
    }
  }

  /** Second t is looked up, and by whatever range that has it as part of a file of s seconds. */
  ghost predicate LooksUp(chain: seq<Block>, t: int, s: int) {
    && SomeHit(chain, t)
    && forall i, j {:trigger chain[i][j].Hit(t)} ::
         0 <= i < |chain| && 0 <= j < |chain[i]| && chain[i][j].Hit(t) ==> chain[i][j].secs == s
  }

  /** Files saved later do not change how a second is looked up. */
  lemma {:induction false} LooksUpStill(chain: seq<Block>, f: File, t: int, s: int)
    requires Blocks(chain) && LooksUp(chain, t, s) && f.gps > t
    requires chain != [] && Current(chain).secs > 0
    ensures LooksUp(AddFile(chain, f), t, s)
  {
    var i: nat, j: nat :| i < |chain| && j < |chain[i]| && chain[i][j].Hit(t);
    var c: seq<Block> := AddFile(chain, f);
    if Current(chain).max == f.gps {
      assert c[i][j].Hit(t);
      forall a, b | 0 <= a < |c| && 0 <= b < |c[a]| && c[a][b].Hit(t) ensures c[a][b].secs == s {
        assert chain[a][b].Hit(t);
      }
    } else {
      StartRangeKeeps(chain, NewRange(f), i, j);
      assert c[i + Back(chain)][j].Hit(t);
      forall a, b | 0 <= a < |c| && 0 <= b < |c[a]| && c[a][b].Hit(t) ensures c[a][b].secs == s {
        StartRangeAdds(chain, NewRange(f), a, b);
        assert chain[a - Back(chain)][b].Hit(t);
      }
    }
  }

  lemma {:induction false} SecsPositive(files: seq<File>)
    requires Ordered(files) && files != []
    ensures Current(Chain(files)).secs > 0
  {
    var n := |files| - 1;
    if n > 0 {
      SecsPositive(files[..n]);
    }
  }

  lemma {:induction false} LooksUpToTheEnd(files: seq<File>, k: nat, n: nat, s: int)
    requires Ordered(files) && k < n <= |files| && LooksUp(Chain(files[..n]), files[k].gps, s)
    ensures LooksUp(Chain(files), files[k].gps, s)
    decreases |files|
  {
    if n == |files| {
      assert files[..n] == files;
    } else {
      var m := |files| - 1;
      assert files[..m][..n] == files[..n];
      LooksUpToTheEnd(files[..m], k, n, s);
      LooksUpOneMore(files, k, m, s);
    }
  }

  lemma {:induction false} LooksUpOneMore(files: seq<File>, k: nat, m: nat, s: int)
    requires Ordered(files) && k < m == |files| - 1 && LooksUp(Chain(files[..m]), files[k].gps, s)
    ensures LooksUp(Chain(files), files[k].gps, s)
  {
    SecsPositive(files[..m]);
    OrderedApart(files, k, m);
    LooksUpStill(Chain(files[..m]), files[m], files[k].gps, s);
  }

  /** A file that touches the one before it extends the range of that file. */
  lemma {:induction false} LooksUpWrong(front: seq<File>, f: File)
    requires Steady(front) && front != [] && f.secs > 0 && front[|front| - 1].End() == f.gps
    ensures LooksUp(AddFile(Chain(front), f), f.gps, front[|front| - 1].secs)
  {
    var chain: seq<Block> := Chain(front);
    ChainAgrees(front);
    var r := Current(chain);
    var last := |chain[0]| - 1;
    var c: seq<Block> := AddFile(chain, f);
    RangeNotEmpty(r);
    assert c[0][last].Hit(f.gps);
    forall a, b | 0 <= a < |c| && 0 <= b < |c[a]| && c[a][b].Hit(f.gps) ensures c[a][b].secs == r.secs {
      if chain[a][b].Hit(f.gps) {
        NothingAfterEnd(front, StartOf(chain[a][b], f.gps), chain[a][b].secs, f.gps);
      }
    }
  }

  lemma {:induction false} NothingAfterEnd(files: seq<File>, gps: int, secs: int, t: int)
    requires Ordered(files) && files != [] && t >= files[|files| - 1].End()
    ensures !FileOf(files, gps, secs, t)
  {
    forall k | 0 <= k < |files| ensures !files[k].Covers(t) {
      if k < |files| - 1 {
        OrderedApart(files, k, |files| - 1);
      }
    }
  }

  /** Two files that touch but differ in length: the second one is looked up with the length of the
      first, whatever is saved later. */
  lemma {:induction false} TouchingDiffer(files: seq<File>, k: nat)
    requires Ordered(files) && 0 < k < |files| && Steady(files[..k])
    requires files[k - 1].End() == files[k].gps && files[k - 1].secs != files[k].secs
    ensures LooksUp(Chain(files), files[k].gps, files[k - 1].secs)
    ensures !Agrees(Chain(files), files)
  {
    var front, f := files[..k], files[k];
    LooksUpWrong(front, f);
    assert files[..k + 1][..k] == front;
    LooksUpToTheEnd(files, k, k + 1, files[k - 1].secs);
    WrongAnswer(files, k, files[k - 1].secs);
  }

  lemma {:induction false} WrongAnswer(files: seq<File>, k: nat, s: int)
    requires Ordered(files) && k < |files| && LooksUp(Chain(files), files[k].gps, s) && s != files[k].secs
    ensures !Agrees(Chain(files), files)
  {
    var chain: seq<Block>, t := Chain(files), files[k].gps;
    if Agrees(chain, files) {
      var i, j :| 0 <= i < |chain| && 0 <= j < |chain[i]| && chain[i][j].Hit(t);
      assert FileOf(files, StartOf(chain[i][j], t), chain[i][j].secs, t);
      var g :| 0 <= g < |files| && files[g] == File(StartOf(chain[i][j], t), chain[i][j].secs) && files[g].Covers(t);
      OneCovers(files, g, k, t);
    }
  }

  /** No second belongs to two files. */
  lemma OneCovers(files: seq<File>, a: nat, b: nat, t: int)
    requires Ordered(files) && a < |files| && b < |files| && files[a].Covers(t) && files[b].Covers(t)
    ensures a == b
  {
    if a < b {
      OrderedApart(files, a, b);
    } else if b < a {
      OrderedApart(files, b, a);
    }
  }

  lemma RangeNotEmpty(r: Range)
    requires WholeRange(r)
    ensures r.min < r.max
  {
    var n: nat :| n > 0 && r.max == r.min + n * r.secs;
    MulSign(n, r.secs);
  }

  lemma {:induction false} FirstUnsteady(files: seq<File>) returns (k: nat)
    requires Ordered(files) && !Steady(files)
    ensures 0 < k < |files| && Steady(files[..k])
    ensures files[k - 1].End() == files[k].gps && files[k - 1].secs != files[k].secs
    decreases |files|
  {
    var n := |files| - 1;
    if Steady(files[..n]) {
      k := n;
      assert forall i :: 0 <= i < n ==> files[..n][i] == files[i];
    } else {
      k := FirstUnsteady(files[..n]);
      assert files[..n][..k] == files[..k];
    }
  }

  /** For files in order, the ranges agree with the files if and only if files that touch are
      equally long. */
  lemma AgreesExactlyWhenSteady(files: seq<File>)
    requires Ordered(files)
    ensures Agrees(Chain(files), files) <==> Steady(files)
  {
    if Steady(files) {
      ChainAgrees(files);
    } else {
      var k := FirstUnsteady(files);
      TouchingDiffer(files, k);
    }
  }

  // ---- lengths ------------------------------------------------------------------------------

  ghost predicate Lengths(chain: seq<Block>) {
    forall i, j :: 0 <= i < |chain| && 0 <= j < |chain[i]| ==> chain[i][j].secs > 0
  }

  /** No range can make the lookup divide by zero unless a file of no length was saved. */
  lemma {:induction false} ChainLengths(files: seq<File>)
    requires forall k :: 0 <= k < |files| ==> files[k].secs > 0
    ensures Lengths(Chain(files))
  {
    if files != [] {
      var front, f := files[..|files| - 1], files[|files| - 1];
      ChainLengths(front);
      var chain: seq<Block> := Chain(front);
      if front == [] || Current(chain).max != f.gps {
        var c: seq<Block> := StartRange(chain, NewRange(f));
        forall i, j | 0 <= i < |c| && 0 <= j < |c[i]| ensures c[i][j].secs > 0 {
          if c[i][j] != NewRange(f) {
            StartRangeAdds(chain, NewRange(f), i, j);
          }
        }
      }
    }
  }
}
