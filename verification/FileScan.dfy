/** Rebuilding the index of one directory from the time stamps in its file names (`filesys_c::scan`). */
module FileScan {
  import opened TimeRanges
  import opened FileIndex

  /** The last file of a range of several is taken to be `period` seconds long. */
  function TrimRange(r: Range, period: int): Range {
    if r.max > r.min + r.secs && period > 0 then r.(max := r.max - (r.secs - period)) else r
  }

  function Trim(chain: seq<Block>, period: int): seq<Block>
    requires Blocks(chain) && chain != []
  {
    SetCurrent(chain, TrimRange(Current(chain), period))
  }

  /** One turn of the range-building loop. */
  function ScanFile(chain: seq<Block>, f: File, period: int): (c: seq<Block>)
    requires Blocks(chain)
    ensures Blocks(c)
  {
    if chain == [] then (if f.secs <= 0 then [] else [[NewRange(f)]])
    else if Current(chain).max == f.gps then
      SetCurrent(chain, Current(chain).(max := Current(chain).max + Current(chain).secs))
    else
      var c := Trim(chain, period);
      if f.secs <= 0 then c else StartRange(c, NewRange(f))
  }

  function ScanFiles(files: seq<File>, period: int): (c: seq<Block>)
    ensures Blocks(c)
  {
    if files == [] then []
    else ScanFile(ScanFiles(files[..|files| - 1], period), files[|files| - 1], period)
  }

  /** The chain that is left in the directory. */
  function Scanned(files: seq<File>, period: int): seq<Block> {
    var c := ScanFiles(files, period);
    if c == [] then c else Trim(c, period)
  }

  lemma {:induction false} SetSame(chain: seq<Block>)
    requires Blocks(chain) && chain != []
    ensures SetCurrent(chain, Current(chain)) == chain
  {
    assert chain[0][|chain[0]| - 1 := Current(chain)] == chain[0];
  }

  /** The length of the last file of a range is corrected. */
  method TrimLast(chain0: seq<Block>, period: int) returns (chain: seq<Block>)
    requires Blocks(chain0) && chain0 != []
    ensures chain == Trim(chain0, period)
  {
    chain := chain0;
    var r := Current(chain);
    SetSame(chain);
    if r.max > r.min + r.secs {
      var lastFrameLen := period;
      if lastFrameLen > 0 {
        chain := SetCurrent(chain, r.(max := r.max - (r.secs - lastFrameLen)));
      }
    }
  }

  /** The loop of scan() for the sorted time stamps of one directory; `counted` is the number of
      file names seen there. */
  method ScanDir(tstamps: seq<File>, counted: nat, period: int) returns (d: Dir)
    ensures d.blist == Scanned(tstamps, period)
    ensures d.blist == [] ==> d == NO_FILES
    ensures d.blist != [] ==> d.nfiles == counted && Blocks(d.blist) && d.maxTime == Current(d.blist).max
    ensures d.blist != [] ==> exists j ::
      0 <= j < |tstamps| && d.minTime == tstamps[j].gps && tstamps[j].secs > 0 &&
      forall i :: 0 <= i < j ==> tstamps[i].secs <= 0
  {
    var frameLen, dirMin := 0, 0;
    var chain: seq<Block> := [];
    ghost var first: nat := 0;
    for j := 0 to |tstamps|
      invariant chain == ScanFiles(tstamps[..j], period)
      invariant frameLen == 0 <==> chain == []
      invariant chain == [] ==> forall i :: 0 <= i < j ==> tstamps[i].secs <= 0
      invariant chain != [] ==> first < j && dirMin == tstamps[first].gps && tstamps[first].secs > 0
      invariant chain != [] ==> forall i :: 0 <= i < first ==> tstamps[i].secs <= 0
    {
      assert tstamps[..j + 1][..j] == tstamps[..j];
      if frameLen == 0 {
        frameLen := tstamps[j].secs;
        if frameLen <= 0 {
          frameLen := 0;
          continue;
        }
        chain := [[NewRange(tstamps[j])]] + chain;
        dirMin := tstamps[j].gps;
        first := j;
      } else if Current(chain).max == tstamps[j].gps {
        chain := SetCurrent(chain, Current(chain).(max := Current(chain).max + Current(chain).secs));
      } else {
        chain := TrimLast(chain, period);
        var tmpFrameLen := tstamps[j].secs;
        if tmpFrameLen <= 0 {
          continue;
        }
        frameLen := tmpFrameLen;
        if |chain[0]| >= MAX_RANGES {
          chain := [[NewRange(tstamps[j])]] + chain;
        } else {
          chain := chain[0 := chain[0] + [NewRange(tstamps[j])]];
        }
      }
    }
    assert tstamps[..|tstamps|] == tstamps;
    if chain == [] {
      return NO_FILES;
    }
    chain := TrimLast(chain, period);
    d := Dir(counted, dirMin, Current(chain).max, chain);
  }

  // ---- rebuilding against replaying ----------------------------------------------------------

  /** The chain with every range trimmed. */
  function TrimAll(chain: seq<Block>, period: int): (c: seq<Block>)
    ensures |c| == |chain| && forall i :: 0 <= i < |c| ==> |c[i]| == |chain[i]|
    ensures forall i, j :: 0 <= i < |c| && 0 <= j < |c[i]| ==> c[i][j] == TrimRange(chain[i][j], period)
    ensures Blocks(chain) ==> Blocks(c)
  {
    seq(|chain|, i requires 0 <= i < |chain| =>
      seq(|chain[i]|, j requires 0 <= j < |chain[i]| => TrimRange(chain[i][j], period)))
  }

  /** The chain with every range trimmed except the current one. */
  function TrimOthers(chain: seq<Block>, period: int): (c: seq<Block>)
    requires Blocks(chain)
    ensures Blocks(c)
  {
    if chain == [] then [] else SetCurrent(TrimAll(chain, period), Current(chain))
  }

  lemma {:induction false} ScanTrimsOthers(files: seq<File>, period: int)
    requires forall k :: 0 <= k < |files| ==> files[k].secs > 0
    ensures ScanFiles(files, period) == TrimOthers(Chain(files), period)
  {
    if files != [] {
      var front, f := files[..|files| - 1], files[|files| - 1];
      ScanTrimsOthers(front, period);
      TrimOthersAdd(Chain(front), f, period);
    }
  }

  lemma {:induction false} OneRange(r: Range, period: int)
    ensures TrimOthers([[r]], period) == [[r]]
  {
    var c: seq<Block> := TrimOthers([[r]], period);
    assert |c| == 1 && |c[0]| == 1 && c[0][0] == r;
    assert c[0] == [r];
  }

  lemma {:induction false} TrimOthersAdd(chain: seq<Block>, f: File, period: int)
    requires Blocks(chain) && f.secs > 0
    ensures ScanFile(TrimOthers(chain, period), f, period) == TrimOthers(AddFile(chain, f), period)
  {
    var c: seq<Block> := TrimOthers(chain, period);
    if chain == [] {
      assert AddFile(chain, f) == [[NewRange(f)]];
      OneRange(NewRange(f), period);
    } else {
      var r := Current(chain);
      var last := |chain[0]| - 1;
      assert Current(c) == r;
      if r.max == f.gps {
        var r' := r.(max := r.max + r.secs);
        var left, right := SetCurrent(c, r'), TrimOthers(SetCurrent(chain, r'), period);
        assert left[0] == right[0];
        assert forall i :: 0 < i < |left| ==> left[i] == right[i];
        assert left == right;
      } else {
        var t: seq<Block> := Trim(c, period);
        var all: seq<Block> := TrimAll(chain, period);
        assert t[0] == all[0];
        assert forall i :: 0 < i < |t| ==> t[i] == all[i];
        assert t == all;
        StartTrims(chain, NewRange(f), period);
      }
    }
  }

  lemma {:induction false} StartTrims(chain: seq<Block>, r: Range, period: int)
    requires Blocks(chain) && chain != []
    ensures Blocks(TrimAll(chain, period))
    ensures StartRange(TrimAll(chain, period), r) == TrimOthers(StartRange(chain, r), period)
  {
    var left: seq<Block> := StartRange(TrimAll(chain, period), r);
    var next: seq<Block> := StartRange(chain, r);
    var right: seq<Block> := TrimOthers(next, period);
    assert |left| == |right|;
    forall i | 0 <= i < |left| ensures left[i] == right[i] {
      assert |left[i]| == |right[i]|;
      assert forall j :: 0 <= j < |left[i]| ==> left[i][j] == right[i][j];
    }
  }

  /** Rebuilding a directory trims every range of the chain that replaying its files would leave. */
  lemma {:induction false} ScanTrims(files: seq<File>, period: int)
    requires forall k :: 0 <= k < |files| ==> files[k].secs > 0
    ensures Scanned(files, period) == TrimAll(Chain(files), period)
  {
    ScanTrimsOthers(files, period);
    if files != [] {
      var chain: seq<Block> := Chain(files);
      var t: seq<Block> := Trim(TrimOthers(chain, period), period);
      var all: seq<Block> := TrimAll(chain, period);
      assert t[0] == all[0];
      assert forall i :: 0 < i < |t| ==> t[i] == all[i];
      assert t == all;
    }
  }

  // ---- which files a range stands for ----------------------------------------------------------

  /** Range r is a run of files a to b, one after the other in steps of the length of the first, and ends that length
      after the start of the last. */
  ghost predicate RangeOf(files: seq<File>, r: Range, a: nat, b: nat) {
    && a <= b < |files| && r.min == files[a].gps && r.secs == files[a].secs > 0 && r.max == files[b].gps + r.secs
    && (a < b ==> r.max > r.min + r.secs)
    && forall k {:trigger InStep(files, r.secs, k)} :: a < k <= b ==> InStep(files, r.secs, k)
  }

  predicate InStep(files: seq<File>, secs: int, k: int) {
    0 < k < |files| && files[k].gps == files[k - 1].gps + secs
  }

  ghost predicate SomeRun(files: seq<File>, r: Range) {
    exists a, b :: RangeOf(files, r, a, b)
  }

  ghost predicate EndsAt(files: seq<File>, r: Range, b: nat) {
    exists a :: RangeOf(files, r, a, b)
  }

  ghost predicate AllRuns(files: seq<File>, chain: seq<Block>) {
    forall i, j :: 0 <= i < |chain| && 0 <= j < |chain[i]| ==> SomeRun(files, chain[i][j])
  }

  lemma StillRun(front: seq<File>, f: File, r: Range)
    requires SomeRun(front, r)
    ensures SomeRun(front + [f], r)
  {
    var a: nat, b: nat :| RangeOf(front, r, a, b);
    forall k {:trigger InStep(front + [f], r.secs, k)} | a < k <= b ensures InStep(front + [f], r.secs, k) {
      assert InStep(front, r.secs, k);
    }
    assert RangeOf(front + [f], r, a, b);
  }

  lemma RunExtended(front: seq<File>, f: File, r: Range, a: nat)
    requires front != [] && RangeOf(front, r, a, |front| - 1) && r.max == f.gps
    ensures RangeOf(front + [f], r.(max := r.max + r.secs), a, |front|)
  {
    var files := front + [f];
    forall k {:trigger InStep(files, r.secs, k)} | a < k <= |front| ensures InStep(files, r.secs, k) {
      assert k < |front| ==> InStep(front, r.secs, k);
    }
  }

  /** One more file: the ranges before it stand, and the current one ends with it. */
  lemma {:induction false} AddRun(front: seq<File>, chain: seq<Block>, f: File)
    requires Blocks(chain) && f.secs > 0 && AllRuns(front, chain) && (chain == [] <==> front == [])
    requires chain != [] ==> EndsAt(front, Current(chain), |front| - 1)
    ensures AllRuns(front + [f], AddFile(chain, f))
    ensures EndsAt(front + [f], Current(AddFile(chain, f)), |front|)
  {
    var c: seq<Block>, files := AddFile(chain, f), front + [f];
    if chain != [] && Current(chain).max == f.gps {
      var a: nat :| RangeOf(front, Current(chain), a, |front| - 1);
      RunExtended(front, f, Current(chain), a);
      assert RangeOf(files, Current(c), a, |front|);
      forall i, j | 0 <= i < |c| && 0 <= j < |c[i]| ensures SomeRun(files, c[i][j]) {
        if i == 0 && j == |chain[0]| - 1 {
          assert RangeOf(files, c[i][j], a, |front|);
        } else {
          StillRun(front, f, chain[i][j]);
        }
      }
    } else {
      assert RangeOf(files, NewRange(f), |front|, |front|);
      forall i, j | 0 <= i < |c| && 0 <= j < |c[i]| ensures SomeRun(files, c[i][j]) {
        if c[i][j] != NewRange(f) {
          OldRange(chain, NewRange(f), i, j, front);
          StillRun(front, f, c[i][j]);
        }
      }
    }
  }

  lemma {:induction false} OldRange(chain: seq<Block>, r: Range, i: nat, j: nat, front: seq<File>)
    requires Blocks(chain) && AllRuns(front, chain)
    requires i < |StartRange(chain, r)| && j < |StartRange(chain, r)[i]| && StartRange(chain, r)[i][j] != r
    ensures SomeRun(front, StartRange(chain, r)[i][j])
  {
    StartRangeAdds(chain, r, i, j);
  }

  /** Every range that saving files leaves behind is a run of them. */
  lemma {:induction false} ChainRuns(files: seq<File>)
    requires forall k :: 0 <= k < |files| ==> files[k].secs > 0
    ensures AllRuns(files, Chain(files))
    ensures files != [] ==> EndsAt(files, Current(Chain(files)), |files| - 1)
  {
    if files != [] {
      var front, f := files[..|files| - 1], files[|files| - 1];
      ChainRuns(front);
      AddRun(front, Chain(front), f);
      assert front + [f] == files;
    }
  }

  /** Every range that a rebuilt directory has is a run of its files; it ends `period` seconds after the start of the
      last of several, and the length of the file after the start of a single one. */
  lemma {:induction false} ScanRuns(files: seq<File>, period: int, i: nat, j: nat) returns (a: nat, b: nat, r: Range)
    requires forall k :: 0 <= k < |files| ==> files[k].secs > 0
    requires i < |Scanned(files, period)| && j < |Scanned(files, period)[i]|
    ensures RangeOf(files, r, a, b)
    ensures var s := Scanned(files, period)[i][j];
      && s.min == files[a].gps && s.secs == files[a].secs
      && s.max == files[b].gps + (if a < b && period > 0 then period else files[a].secs)
  {
    ScanTrims(files, period);
    ChainRuns(files);
    r := Chain(files)[i][j];
    assert SomeRun(files, r);
    a, b :| RangeOf(files, r, a, b);
  }

  // ---- files whose length is not known ----------------------------------------------------------

  ghost predicate StartsAtFile(files: seq<File>, r: Range) {
    exists a :: 0 <= a < |files| && files[a].secs > 0 && r.min == files[a].gps && r.secs == files[a].secs
  }

  ghost predicate AllStart(files: seq<File>, chain: seq<Block>) {
    forall i, j :: 0 <= i < |chain| && 0 <= j < |chain[i]| ==> StartsAtFile(files, chain[i][j])
  }

  lemma {:induction false} AllStartMore(front: seq<File>, f: File, chain: seq<Block>)
    requires AllStart(front, chain)
    ensures AllStart(front + [f], chain)
  {
    forall i, j | 0 <= i < |chain| && 0 <= j < |chain[i]| ensures StartsAtFile(front + [f], chain[i][j]) {
      var a :| 0 <= a < |front| && front[a].secs > 0 && chain[i][j].min == front[a].gps &&
        chain[i][j].secs == front[a].secs;
      assert (front + [f])[a] == front[a];
    }
  }

  lemma {:induction false} AllStartSet(files: seq<File>, chain: seq<Block>, max: int)
    requires Blocks(chain) && chain != [] && AllStart(files, chain)
    ensures AllStart(files, SetCurrent(chain, Current(chain).(max := max)))
  {
    var c: seq<Block> := SetCurrent(chain, Current(chain).(max := max));
    forall i, j | 0 <= i < |c| && 0 <= j < |c[i]| ensures StartsAtFile(files, c[i][j]) {
      assert StartsAtFile(files, chain[i][j]);
    }
  }

  lemma {:induction false} AllStartTrim(files: seq<File>, chain: seq<Block>, period: int)
    requires Blocks(chain) && chain != [] && AllStart(files, chain)
    ensures Trim(chain, period) != [] && Blocks(Trim(chain, period)) && AllStart(files, Trim(chain, period))
  {
    AllStartSet(files, chain, TrimRange(Current(chain), period).max);
    assert Current(chain).(max := TrimRange(Current(chain), period).max) == TrimRange(Current(chain), period);
  }

  lemma {:induction false} AllStartNew(files: seq<File>, chain: seq<Block>, f: File)
    requires Blocks(chain) && AllStart(files, chain) && f in files && f.secs > 0
    ensures AllStart(files, StartRange(chain, NewRange(f)))
  {
    var c: seq<Block> := StartRange(chain, NewRange(f));
    forall i, j | 0 <= i < |c| && 0 <= j < |c[i]| ensures StartsAtFile(files, c[i][j]) {
      if c[i][j] == NewRange(f) {
        var a :| 0 <= a < |files| && files[a] == f;
        assert StartsAtFile(files, c[i][j]);
      } else {
        StartRangeAdds(chain, NewRange(f), i, j);
      }
    }
  }

  /** Whatever lengths the file names give, every range starts at a file that has one and takes its length from it. */
  lemma {:induction false} ScanStarts(files: seq<File>, period: int)
    ensures AllStart(files, ScanFiles(files, period)) && AllStart(files, Scanned(files, period))
  {
    if files != [] {
      var front, f := files[..|files| - 1], files[|files| - 1];
      assert front + [f] == files;
      ScanStarts(front, period);
      var chain: seq<Block> := ScanFiles(front, period);
      AllStartMore(front, f, chain);
      if chain == [] {
        if f.secs > 0 {
          AllStartNew(files, [], f);
        }
      } else if Current(chain).max == f.gps {
        AllStartSet(files, chain, Current(chain).max + Current(chain).secs);
      } else {
        AllStartTrim(files, chain, period);
        if f.secs > 0 {
          AllStartNew(files, Trim(chain, period), f);
        }
      }
      if ScanFiles(files, period) != [] {
        AllStartTrim(files, ScanFiles(files, period), period);
      }
    }
  }

  /** A file that touches the current range counts for the length of that range, whatever its name says. */
  lemma {:induction false} TouchingLengthUnread(front: seq<File>, f: File, secs: int, period: int)
    requires ScanFiles(front, period) != [] && Current(ScanFiles(front, period)).max == f.gps
    ensures Scanned(front + [f], period) == Scanned(front + [f.(secs := secs)], period)
  {
    assert (front + [f])[..|front|] == front && (front + [f.(secs := secs)])[..|front|] == front;
  }

  /** A file in a gap whose name gives no length still trims the range before it, which is trimmed again later: three
      files of 16 seconds and such a file, scanned with a period of one second, lose 30 seconds instead of 15. */
  lemma {:induction false} TrimmedTwice(files: seq<File>)
    requires files == [File(100, 16), File(116, 16), File(132, 16), File(200, 0)]
    ensures Scanned(files[..3], 1) == [[Range(16, 100, 133)]]
    ensures Scanned(files, 1) == [[Range(16, 100, 118)]]
  {
    assert files[..3][..2] == files[..2] && files[..2][..1] == files[..1] && files[..1][..0] == [];
    assert ScanFiles(files[..1], 1) == [[Range(16, 100, 116)]];
    OneSet(Range(16, 100, 116), Range(16, 100, 132));
    assert ScanFiles(files[..2], 1) == [[Range(16, 100, 132)]];
    OneSet(Range(16, 100, 132), Range(16, 100, 148));
    assert ScanFiles(files[..3], 1) == [[Range(16, 100, 148)]];
    OneSet(Range(16, 100, 148), Range(16, 100, 133));
    assert ScanFiles(files, 1) == [[Range(16, 100, 133)]];
    OneSet(Range(16, 100, 133), Range(16, 100, 118));
  }

  lemma OneSet(r: Range, s: Range)
    ensures SetCurrent([[r]], s) == [[s]]
  {
    var c: seq<Block> := [[r]];
    assert c[0][|c[0]| - 1 := s] == [s];
  }

  /** Every range of more than one file has files of `period` seconds. */
  ghost predicate PeriodFits(chain: seq<Block>, period: int) {
    forall i, j :: 0 <= i < |chain| && 0 <= j < |chain[i]| && chain[i][j].max > chain[i][j].min + chain[i][j].secs ==>
      chain[i][j].secs == period
  }

  /** Rebuilding and replaying agree exactly when the ranges of several files fit the period, or no
      period is set. */
  lemma {:induction false} RebuildIsReplayExactly(files: seq<File>, period: int)
    requires forall k :: 0 <= k < |files| ==> files[k].secs > 0
    ensures Scanned(files, period) == Chain(files) <==> period <= 0 || PeriodFits(Chain(files), period)
  {
    ScanTrims(files, period);
    var chain: seq<Block> := Chain(files);
    var all: seq<Block> := TrimAll(chain, period);
    if period <= 0 || PeriodFits(chain, period) {
      forall i | 0 <= i < |chain| ensures all[i] == chain[i] {
        assert forall j :: 0 <= j < |chain[i]| ==> all[i][j] == chain[i][j];
      }
      assert all == chain;
    } else {
      var i, j :| 0 <= i < |chain| && 0 <= j < |chain[i]| &&
        chain[i][j].max > chain[i][j].min + chain[i][j].secs && chain[i][j].secs != period;
      assert all[i][j] != chain[i][j];
    }
  }

  predicate Touches(files: seq<File>, k: int)
    requires 0 < k < |files|
  {
    files[k - 1].End() == files[k].gps
  }

  /** Every file that touches the one before it is `period` seconds long. */
  ghost predicate TouchingFit(files: seq<File>, period: int) {
    forall k {:trigger Touches(files, k)} :: 0 < k < |files| && Touches(files, k) ==> files[k].secs == period
  }

  lemma {:induction false} TouchingFitMore(front: seq<File>, f: File, period: int)
    ensures TouchingFit(front + [f], period) <==>
      TouchingFit(front, period) &&
      (front != [] && front[|front| - 1].End() == f.gps ==> f.secs == period)
  {
    var files, n := front + [f], |front|;
    forall k {:trigger Touches(files, k)} {:trigger Touches(front, k)} | 0 < k < n
      ensures Touches(files, k) <==> Touches(front, k)
    {
    }
    assert n > 0 ==> (Touches(files, n) <==> front[n - 1].End() == f.gps);
  }

  /** A longer current range of more than one file. */
  lemma {:induction false} FitsExtended(chain: seq<Block>, r: Range, period: int)
    requires Blocks(chain) && chain != [] && r.secs == Current(chain).secs && r.max > r.min + r.secs
    ensures PeriodFits(SetCurrent(chain, r), period) <==> PeriodFits(chain, period) && r.secs == period
  {
    var c: seq<Block> := SetCurrent(chain, r);
    var last := |chain[0]| - 1;
    if PeriodFits(c, period) {
      assert c[0][last].secs == period;
      forall i, j | 0 <= i < |chain| && 0 <= j < |chain[i]| && chain[i][j].max > chain[i][j].min + chain[i][j].secs
        ensures chain[i][j].secs == period
      {
        assert (i == 0 && j == last) || c[i][j] == chain[i][j];
      }
    }
  }

  lemma {:induction false} FitsStarted(chain: seq<Block>, f: File, period: int)
    requires Blocks(chain)
    ensures PeriodFits(StartRange(chain, NewRange(f)), period) <==> PeriodFits(chain, period)
  {
    var c: seq<Block> := StartRange(chain, NewRange(f));
    if PeriodFits(c, period) {
      forall i, j | 0 <= i < |chain| && 0 <= j < |chain[i]| && chain[i][j].max > chain[i][j].min + chain[i][j].secs
        ensures chain[i][j].secs == period
      {
        StartRangeKeeps(chain, NewRange(f), i, j);
      }
    }
    if PeriodFits(chain, period) {
      forall i, j | 0 <= i < |c| && 0 <= j < |c[i]| && c[i][j].max > c[i][j].min + c[i][j].secs
        ensures c[i][j].secs == period
      {
        StartRangeAdds(chain, NewRange(f), i, j);
      }
    }
  }

  lemma {:induction false} FitsAdded(chain: seq<Block>, f: File, period: int)
    requires Blocks(chain) && (chain != [] ==> Current(chain).secs > 0 && Current(chain).min < Current(chain).max)
    requires chain != [] && Current(chain).max == f.gps ==> Current(chain).secs == f.secs
    ensures PeriodFits(AddFile(chain, f), period) <==>
      PeriodFits(chain, period) && (chain != [] && Current(chain).max == f.gps ==> f.secs == period)
  {
    if chain != [] && Current(chain).max == f.gps {
      FitsExtended(chain, Current(chain).(max := Current(chain).max + Current(chain).secs), period);
    } else {
      FitsStarted(chain, f, period);
    }
  }

  lemma {:induction false} CurrentIsLast(files: seq<File>)
    requires Steady(files) && files != []
    ensures var r, f := Current(Chain(files)), files[|files| - 1];
      r.max == f.End() && r.secs == f.secs > 0 && r.min < r.max
  {
    ChainAgrees(files);
    RangeNotEmpty(Current(Chain(files)));
  }

  lemma {:induction false} FitsStep(front: seq<File>, f: File, period: int)
    requires Steady(front)
    requires front != [] && front[|front| - 1].End() == f.gps ==> front[|front| - 1].secs == f.secs
    requires PeriodFits(Chain(front), period) <==> TouchingFit(front, period)
    ensures PeriodFits(AddFile(Chain(front), f), period) <==> TouchingFit(front + [f], period)
  {
    if front != [] {
      CurrentIsLast(front);
    }
    TouchingFitMore(front, f, period);
    FitsAdded(Chain(front), f, period);
  }

  lemma {:induction false} SteadyFront(files: seq<File>, front: seq<File>, f: File)
    requires Steady(files) && files != [] && front == files[..|files| - 1] && f == files[|files| - 1]
    ensures Steady(front) && files == front + [f] && Chain(files) == AddFile(Chain(front), f)
    ensures front != [] && front[|front| - 1].End() == f.gps ==> front[|front| - 1].secs == f.secs
  {
  }

  lemma {:induction false} FitsIsTouchingFit(files: seq<File>, period: int)
    requires Steady(files)
    ensures PeriodFits(Chain(files), period) <==> TouchingFit(files, period)
  {
    if files != [] {
      var front, f := files[..|files| - 1], files[|files| - 1];
      SteadyFront(files, front, f);
      FitsIsTouchingFit(front, period);
      FitsStep(front, f, period);
    }
  }

  /** For the files themselves: a steady directory is rebuilt as it was if and only if no period is set
      or every file that touches the one before it has that length. */
  lemma {:induction false} RebuildExactForFiles(files: seq<File>, period: int)
    requires Steady(files)
    ensures Scanned(files, period) == Chain(files) <==> period <= 0 || TouchingFit(files, period)
  {
    RebuildIsReplayExactly(files, period);
    FitsIsTouchingFit(files, period);
  }

  /** Two files of 16 seconds, scanned with a period of one second: the last 15 seconds are lost. */
  lemma {:induction false} RebuildLoses(files: seq<File>)
    requires files == [File(100, 16), File(116, 16)]
    ensures Chain(files) == [[Range(16, 100, 132)]]
    ensures Scanned(files, 1) == [[Range(16, 100, 117)]]
    ensures files[1].Covers(117) && SomeHit(Chain(files), 117) && !SomeHit(Scanned(files, 1), 117)
  {
    var one := files[..1];
    assert one == [File(100, 16)] && one[..0] == [] && Chain(one[..0]) == [];
    assert Chain(one) == AddFile([], File(100, 16)) == [[Range(16, 100, 116)]];
    var c: seq<Block> := AddFile(Chain(one), File(116, 16));
    assert Chain(files) == c && |c| == 1 && |c[0]| == 1 && c[0][0] == Range(16, 100, 132);
    assert c[0] == [Range(16, 100, 132)];
    assert Chain(files)[0][0].Hit(117);
    ScanTrims(files, 1);
    var all: seq<Block> := TrimAll(Chain(files), 1);
    assert |all| == 1 && |all[0]| == 1 && all[0][0] == Range(16, 100, 117);
    assert all[0] == [Range(16, 100, 117)];
    assert all == [[Range(16, 100, 117)]];
  }

  lemma {:induction false} UniformRanges(files: seq<File>, period: int)
    requires forall k :: 0 <= k < |files| ==> files[k].secs == period
    ensures forall i, j :: 0 <= i < |Chain(files)| && 0 <= j < |Chain(files)[i]| ==> Chain(files)[i][j].secs == period
    ensures files != [] ==> Current(Chain(files)).max == files[|files| - 1].End()
  {
    if files != [] {
      var front, f := files[..|files| - 1], files[|files| - 1];
      UniformRanges(front, period);
      var chain: seq<Block> := Chain(front);
      if front == [] || Current(chain).max != f.gps {
        var c: seq<Block> := StartRange(chain, NewRange(f));
        forall i, j | 0 <= i < |c| && 0 <= j < |c[i]| ensures c[i][j].secs == period {
          if c[i][j] != NewRange(f) {
            StartRangeAdds(chain, NewRange(f), i, j);
          }
        }
      }
    }
  }

  /** A directory all of whose files have the period's length is rebuilt as it was. */
  lemma {:induction false} RebuildRestores(files: seq<File>, period: int, d: Dir)
    requires files != [] && period > 0 && forall k :: 0 <= k < |files| ==> files[k].secs == period
    requires d.blist == Scanned(files, period) && d.nfiles == |files| && d.maxTime == Current(d.blist).max
    requires exists j ::
      0 <= j < |files| && d.minTime == files[j].gps && files[j].secs > 0 &&
      forall i :: 0 <= i < j ==> files[i].secs <= 0
    ensures d == DirOf(files)
  {
    UniformRanges(files, period);
    RebuildIsReplayExactly(files, period);
    var j :| 0 <= j < |files| && d.minTime == files[j].gps && files[j].secs > 0 &&
      forall i :: 0 <= i < j ==> files[i].secs <= 0;
    assert j == 0 by {
      assert files[0].secs == period;
    }
  }
}
