/** What the index of saved files has to hold: files go to the directories of a ring in batches of
    filesPerDir, and the directory that comes next is always kept empty. */
module FileIndex {
  import opened Ring
  import opened TimeRanges

  /** One element of filesys_c::dir */
  datatype Dir = Dir(nfiles: nat, minTime: int, maxTime: int, blist: seq<Block>)

  const NO_FILES := Dir(0, 0, 0, [])

  /** Position of the first file of the e-th directory ever entered. */
  function Start(e: nat, perDir: nat): nat {
    if e == 0 then 0 else Start(e - 1, perDir) + perDir
  }

  lemma {:induction false} StartMonotone(a: nat, b: nat, perDir: nat)
    requires a <= b
    ensures Start(a, perDir) <= Start(b, perDir)
    ensures a < b ==> Start(a, perDir) + perDir <= Start(b, perDir)
    decreases b
  {
    if a < b {
      StartMonotone(a, b - 1, perDir);
    }
  }

  lemma {:induction false} StartIs(e: nat, perDir: nat)
    ensures Start(e, perDir) == e * perDir
  {
    if e > 0 {
      StartIs(e - 1, perDir);
      assert e * perDir == (e - 1) * perDir + perDir;
    }
  }

  /** `entered` directories have been entered for n files. */
  predicate Entered(n: nat, entered: nat, perDir: nat) {
    if entered == 0 then n == 0 else Start(entered - 1, perDir) < n <= Start(entered, perDir)
  }

  /** The files of the e-th directory entered. */
  function Batch(log: seq<File>, entered: nat, perDir: nat, e: nat): (b: seq<File>)
    requires Entered(|log|, entered, perDir) && e < entered
    ensures 0 < |b| <= perDir
    ensures e + 1 < entered ==> |b| == perDir
  {
    StartMonotone(e, entered - 1, perDir);
    StartMonotone(e + 1, entered, perDir);
    if e + 1 == entered then log[Start(e, perDir)..]
    else
      StartMonotone(e + 1, entered - 1, perDir);
      log[Start(e, perDir)..Start(e + 1, perDir)]
  }

  function DirOf(files: seq<File>): Dir
    requires files != []
  {
    Dir(|files|, files[0].gps, files[|files| - 1].End(), Chain(files))
  }

  /** The oldest directory entered that has not been cleaned again. */
  function Oldest(entered: nat, numDirs: nat): nat {
    if entered + 1 < numDirs then 0 else entered + 1 - numDirs
  }

  /** What directory k holds. */
  function Held(log: seq<File>, entered: nat, perDir: nat, numDirs: nat, k: nat): Dir
    requires Entered(|log|, entered, perDir) && k < numDirs && numDirs >= 2
  {
    var e := Own(entered, numDirs, k);
    if e >= 0 && e >= Oldest(entered, numDirs) then DirOf(Batch(log, entered, perDir, e)) else NO_FILES
  }

  /** The files that can still be looked up: those at positions from here on. */
  function FirstKept(entered: nat, perDir: nat, numDirs: nat): nat {
    Start(Oldest(entered, numDirs), perDir)
  }

  lemma KeptBound(n: nat, entered: nat, perDir: nat, numDirs: nat)
    requires Entered(n, entered, perDir) && numDirs >= 2
    ensures FirstKept(entered, perDir, numDirs) <= n
    ensures n > 0 ==> FirstKept(entered, perDir, numDirs) < n
  {
    if entered > 0 {
      StartMonotone(Oldest(entered, numDirs), entered - 1, perDir);
    }
  }

  /** One more file in the current directory: only the last batch grows. */
  lemma BatchGrows(log: seq<File>, f: File, entered: nat, perDir: nat, e: nat)
    requires e < entered && Entered(|log|, entered, perDir) && Entered(|log| + 1, entered, perDir)
    ensures Batch(log + [f], entered, perDir, e) ==
            if e + 1 == entered then Batch(log, entered, perDir, e) + [f] else Batch(log, entered, perDir, e)
  {
    StartMonotone(e, entered - 1, perDir);
    StartMonotone(e + 1, entered, perDir);
    if e + 1 < entered {
      StartMonotone(e + 1, entered - 1, perDir);
    }
  }

  /** A directory is entered only when the current one is full. */
  lemma BatchStarts(log: seq<File>, f: File, entered: nat, perDir: nat, e: nat)
    requires e <= entered && perDir > 0 && |log| == Start(entered, perDir) && Entered(|log|, entered, perDir)
    ensures Entered(|log| + 1, entered + 1, perDir)
    ensures Batch(log + [f], entered + 1, perDir, e) == if e == entered then [f] else Batch(log, entered, perDir, e)
  {
    StartMonotone(e, entered, perDir);
    if e < entered {
      StartMonotone(e + 1, entered, perDir);
      StartMonotone(e, entered - 1, perDir);
    }
  }

  /** The number of files in the current directory tells whether it is full. */
  lemma FullMeans(log: seq<File>, entered: nat, perDir: nat)
    requires entered > 0 && Entered(|log|, entered, perDir)
    ensures |Batch(log, entered, perDir, entered - 1)| >= perDir <==> |log| == Start(entered, perDir)
  {
  }

  /** Adding a file to a directory is adding it to the directory's chain. */
  lemma DirGrows(files: seq<File>, f: File)
    requires files != []
    ensures DirOf(files + [f]) == Dir(|files| + 1, files[0].gps, f.End(), AddFile(Chain(files), f))
  {
    assert (files + [f])[..|files|] == files;
  }

  lemma DirStarts(f: File)
    ensures DirOf([f]) == Dir(1, f.gps, f.End(), AddFile([], f))
  {
    assert [f][..0] == [];
  }

  /** One more file in the directory entered last. */
  lemma HeldAfterAdd(log: seq<File>, f: File, entered: nat, perDir: nat, numDirs: nat, k: nat)
    requires numDirs >= 2 && k < numDirs && entered > 0
    requires Entered(|log|, entered, perDir) && Entered(|log| + 1, entered, perDir)
    ensures var b := Batch(log, entered, perDir, entered - 1);
      Held(log + [f], entered, perDir, numDirs, k) ==
      if k == Idx(entered - 1, numDirs) then DirOf(b + [f]) else Held(log, entered, perDir, numDirs, k)
  {
    OwnOfIdx(entered, numDirs, entered - 1);
    var e := Own(entered, numDirs, k);
    if e >= 0 {
      BatchGrows(log, f, entered, perDir, e);
      OwnIsSlot(entered, numDirs, k);
    }
  }

  /** Whose the directories are after one more has been entered. */
  lemma OwnAfterEnter(entered: nat, numDirs: nat, k: nat)
    requires numDirs >= 2 && k < numDirs
    ensures Own(entered, numDirs, Idx(entered, numDirs)) < Oldest(entered, numDirs)
    ensures var e, was := Own(entered + 1, numDirs, k), Own(entered, numDirs, k);
      if k == Idx(entered, numDirs) then e == entered >= Oldest(entered + 1, numDirs)
      else if k == Idx(entered + 1, numDirs) then e < Oldest(entered + 1, numDirs)
      else e == was && (e >= 0 ==> (e >= Oldest(entered + 1, numDirs) <==> e >= Oldest(entered, numDirs)))
  {
    OwnStep(entered, numDirs, k);
  }

  /** The first file of a newly entered directory: it was empty, and the one after it has to be. */
  lemma HeldAfterEnter(log: seq<File>, f: File, entered: nat, perDir: nat, numDirs: nat, k: nat)
    requires numDirs >= 2 && k < numDirs && perDir > 0
    requires Entered(|log|, entered, perDir) && |log| == Start(entered, perDir)
    ensures Entered(|log| + 1, entered + 1, perDir)
    ensures Held(log, entered, perDir, numDirs, Idx(entered, numDirs)) == NO_FILES
    ensures Held(log + [f], entered + 1, perDir, numDirs, k) ==
      if k == Idx(entered, numDirs) then DirOf([f])
      else if k == Idx(entered + 1, numDirs) then NO_FILES
      else Held(log, entered, perDir, numDirs, k)
  {
    OwnAfterEnter(entered, numDirs, k);
    BatchStarts(log, f, entered, perDir, entered);
    var e := Own(entered + 1, numDirs, k);
    if e >= Oldest(entered + 1, numDirs) {
      BatchStarts(log, f, entered, perDir, e);
    }
  }

  ghost predicate Holds(dirs: seq<Dir>, log: seq<File>, entered: nat, perDir: nat) {
    |dirs| >= 2 && Entered(|log|, entered, perDir) &&
    forall k {:trigger Held(log, entered, perDir, |dirs|, k)} ::
      0 <= k < |dirs| ==> dirs[k] == Held(log, entered, perDir, |dirs|, k)
  }

  /** The directory the next file goes to. */
  function Choice(n: nat, entered: nat, perDir: nat, numDirs: nat): nat
    requires numDirs > 0 && Entered(n, entered, perDir)
  {
    if n == Start(entered, perDir) then Idx(entered, numDirs) else Idx(entered - 1, numDirs)
  }

  /** A file counted into directory d. */
  function Counted(d: Dir, f: File): Dir
    requires Blocks(d.blist)
  {
    Dir(d.nfiles + 1, d.minTime, f.End(), AddFile(d.blist, f))
  }

  /** The chosen directory is the one that has room, or an empty one. */
  lemma ChosenHolds(dirs: seq<Dir>, log: seq<File>, entered: nat, perDir: nat)
    requires Holds(dirs, log, entered, perDir) && perDir > 0
    ensures var d := dirs[Choice(|log|, entered, perDir, |dirs|)];
      if |log| == Start(entered, perDir) then d == NO_FILES
      else entered > 0 && d == DirOf(Batch(log, entered, perDir, entered - 1))
  {
    var c := Choice(|log|, entered, perDir, |dirs|);
    assert dirs[c] == Held(log, entered, perDir, |dirs|, c);
    if |log| == Start(entered, perDir) {
      HeldAfterEnter(log, File(1, 1), entered, perDir, |dirs|, 0);
    } else {
      OwnOfIdx(entered, |dirs|, entered - 1);
    }
  }

  lemma HoldsAfterAdd(dirs: seq<Dir>, log: seq<File>, f: File, entered: nat, perDir: nat)
    requires Holds(dirs, log, entered, perDir) && perDir > 0 && |log| != Start(entered, perDir)
    ensures var d := Choice(|log|, entered, perDir, |dirs|);
      Blocks(dirs[d].blist) && Holds(dirs[d := Counted(dirs[d], f)], log + [f], entered, perDir)
  {
    ChosenHolds(dirs, log, entered, perDir);
    var d := Choice(|log|, entered, perDir, |dirs|);
    DirGrows(Batch(log, entered, perDir, entered - 1), f);
    forall k | 0 <= k < |dirs|
      ensures dirs[d := Counted(dirs[d], f)][k] == Held(log + [f], entered, perDir, |dirs|, k)
    {
      HeldAfterAdd(log, f, entered, perDir, |dirs|, k);
    }
  }

  lemma HoldsAfterEnter(dirs: seq<Dir>, log: seq<File>, f: File, entered: nat, perDir: nat)
    requires Holds(dirs, log, entered, perDir) && perDir > 0 && |log| == Start(entered, perDir)
    ensures var d := Idx(entered, |dirs|);
      dirs[d] == NO_FILES &&
      Holds(dirs[Idx(entered + 1, |dirs|) := NO_FILES][d := Counted(NO_FILES.(minTime := f.gps), f)],
            log + [f], entered + 1, perDir)
  {
    var d := Idx(entered, |dirs|);
    DirStarts(f);
    var after := dirs[Idx(entered + 1, |dirs|) := NO_FILES][d := Counted(NO_FILES.(minTime := f.gps), f)];
    HeldAfterEnter(log, f, entered, perDir, |dirs|, d);
    forall k | 0 <= k < |dirs| ensures after[k] == Held(log + [f], entered + 1, perDir, |dirs|, k) {
      HeldAfterEnter(log, f, entered, perDir, |dirs|, k);
    }
  }

  lemma SuccDiffers(e: nat, numDirs: nat)
    requires numDirs >= 2
    ensures Idx(e, numDirs) != Idx(e + 1, numDirs)
  {
  }

  /** The first second of the oldest kept directory is where the code looks for it. */
  lemma OldestFirst(log: seq<File>, entered: nat, perDir: nat, numDirs: nat)
    requires numDirs >= 2 && Entered(|log|, entered, perDir) && entered > 0
    ensures FirstKept(entered, perDir, numDirs) < |log|
    ensures entered + 1 >= numDirs ==>
      Held(log, entered, perDir, numDirs, Idx(entered + 1, numDirs)).minTime ==
      log[FirstKept(entered, perDir, numDirs)].gps
    ensures entered + 1 < numDirs ==> Held(log, entered, perDir, numDirs, Idx(entered + 1, numDirs)) == NO_FILES
  {
    KeptBound(|log|, entered, perDir, numDirs);
    IdxAdd(entered, 1, numDirs);
    if entered + 1 >= numDirs {
      OwnOfIdx(entered, numDirs, entered + 1 - numDirs);
      IdxAdd(entered + 1 - numDirs, numDirs, numDirs);
      StartMonotone(entered + 1 - numDirs, entered - 1, perDir);
    }
  }

  /** The whole index: the directories, and the fields kept beside them. */
  ghost predicate IndexOk(dirs: seq<Dir>, log: seq<File>, entered: nat, perDir: nat,
                          curUpdateDir: int, minTime: int, maxTime: int)
  {
    && perDir > 0
    && (forall k :: 0 <= k < |log| ==> log[k].gps > 0)
    && Holds(dirs, log, entered, perDir)
    && curUpdateDir == (if entered == 0 then -1 else Idx(entered - 1, |dirs|))
    && minTime == First(log, entered, perDir, |dirs|)
    && maxTime == (if log == [] then 0 else log[|log| - 1].End())
  }

  /** The first second that can still be looked up. */
  function First(log: seq<File>, entered: nat, perDir: nat, numDirs: nat): int
    requires numDirs >= 2 && Entered(|log|, entered, perDir)
  {
    KeptBound(|log|, entered, perDir, numDirs);
    if log == [] then 0 else log[FirstKept(entered, perDir, numDirs)].gps
  }

  /** What the code finds before it counts a file in. */
  lemma BeforeUpdate(dirs: seq<Dir>, log: seq<File>, entered: nat, perDir: nat,
                     curUpdateDir: int, minTime: int, maxTime: int)
    requires IndexOk(dirs, log, entered, perDir, curUpdateDir, minTime, maxTime)
    ensures var d := Choice(|log|, entered, perDir, |dirs|);
      && (curUpdateDir != d <==> |log| == Start(entered, perDir))
      && (curUpdateDir != d ==> dirs[d] == NO_FILES && d == Idx(entered, |dirs|))
      && (curUpdateDir < 0 <==> entered == 0)
      && (entered == 0 ==> minTime == 0 && forall k :: 0 <= k < |dirs| ==> dirs[k] == NO_FILES)
      && Blocks(dirs[d].blist)
  {
    ChosenHolds(dirs, log, entered, perDir);
    if entered > 0 {
      SuccDiffers(entered - 1, |dirs|);
    } else {
      forall k | 0 <= k < |dirs| ensures dirs[k] == NO_FILES {
        assert dirs[k] == Held(log, entered, perDir, |dirs|, k);
      }
    }
  }

  lemma AfterAdd(dirs: seq<Dir>, log: seq<File>, f: File, entered: nat, perDir: nat,
                 curUpdateDir: int, minTime: int, maxTime: int)
    requires IndexOk(dirs, log, entered, perDir, curUpdateDir, minTime, maxTime)
    requires f.gps > 0 && |log| != Start(entered, perDir)
    ensures var d := Choice(|log|, entered, perDir, |dirs|);
      Blocks(dirs[d].blist) &&
      IndexOk(dirs[d := Counted(dirs[d], f)], log + [f], entered, perDir, curUpdateDir, minTime, f.End())
  {
    HoldsAfterAdd(dirs, log, f, entered, perDir);
    KeptBound(|log|, entered, perDir, |dirs|);
  }

  /** The global minimum after entering a directory. */
  lemma NewFirst(log: seq<File>, f: File, entered: nat, perDir: nat, numDirs: nat)
    requires numDirs >= 2 && perDir > 0 && f.gps > 0 && forall k :: 0 <= k < |log| ==> log[k].gps > 0
    requires Entered(|log|, entered, perDir) && |log| == Start(entered, perDir)
    ensures Entered(|log| + 1, entered + 1, perDir)
    ensures var yetNext := Held(log + [f], entered + 1, perDir, numDirs, Idx(entered + 2, numDirs)).minTime;
      First(log + [f], entered + 1, perDir, numDirs) ==
      if entered == 0 then f.gps else if yetNext != 0 then yetNext else First(log, entered, perDir, numDirs)
  {
    BatchStarts(log, f, entered, perDir, entered);
    var all := log + [f];
    OldestFirst(all, entered + 1, perDir, numDirs);
    KeptBound(|all|, entered + 1, perDir, numDirs);
    assert all[FirstKept(entered + 1, perDir, numDirs)].gps > 0;
    KeptBound(|log|, entered, perDir, numDirs);
  }

  lemma AfterEnter(dirs: seq<Dir>, log: seq<File>, f: File, entered: nat, perDir: nat,
                   curUpdateDir: int, minTime: int, maxTime: int,
                   after: seq<Dir>, newCur: int, newMin: int, newMax: int)
    requires IndexOk(dirs, log, entered, perDir, curUpdateDir, minTime, maxTime)
    requires f.gps > 0 && |log| == Start(entered, perDir)
    requires newCur == Idx(entered, |dirs|) && newMax == f.End()
    requires after == dirs[Idx(entered + 1, |dirs|) := NO_FILES]
                          [Idx(entered, |dirs|) := Counted(NO_FILES.(minTime := f.gps), f)]
    requires var yetNext := after[Idx(entered + 2, |dirs|)].minTime;
      newMin == if entered == 0 then f.gps else if yetNext != 0 then yetNext else minTime
    ensures IndexOk(after, log + [f], entered + 1, perDir, newCur, newMin, newMax)
  {
    HoldsAfterEnter(dirs, log, f, entered, perDir);
    NewFirst(log, f, entered, perDir, |dirs|);
  }

  /** One file counted in where ChooseDir said keeps the index. */
  lemma AfterUpdate(dirs: seq<Dir>, log: seq<File>, f: File, entered: nat, perDir: nat,
                    curUpdateDir: int, minTime: int, maxTime: int,
                    after: seq<Dir>, d: nat, newMin: int, newMax: int)
    requires IndexOk(dirs, log, entered, perDir, curUpdateDir, minTime, maxTime)
    requires f.gps > 0 && d == Choice(|log|, entered, perDir, |dirs|) && newMax == f.End()
    requires curUpdateDir == d ==>
      Blocks(dirs[d].blist) && after == dirs[d := Counted(dirs[d], f)] && newMin == minTime
    requires curUpdateDir != d ==>
      var next := Succ(d, |dirs|);
      && after == dirs[next := NO_FILES][d := Counted(NO_FILES.(minTime := f.gps), f)]
      && newMin == if curUpdateDir < 0 then f.gps
                   else if after[Succ(next, |dirs|)].minTime != 0 then after[Succ(next, |dirs|)].minTime
                   else minTime
    ensures var e := if |log| == Start(entered, perDir) then entered + 1 else entered;
      IndexOk(after, log + [f], e, perDir, d, newMin, newMax)
  {
    BeforeUpdate(dirs, log, entered, perDir, curUpdateDir, minTime, maxTime);
    if |log| == Start(entered, perDir) {
      AfterEnter(dirs, log, f, entered, perDir, curUpdateDir, minTime, maxTime, after, d, newMin, newMax);
    } else {
      AfterAdd(dirs, log, f, entered, perDir, curUpdateDir, minTime, maxTime);
    }
  }

  // ---- the extremes -----------------------------------------------------------------------

  /** In an ordered log the first kept file starts no later, and the last ends no earlier, than any. */
  lemma Extremes(log: seq<File>, from: nat, k: nat)
    requires Ordered(log) && from <= k < |log|
    ensures log[from].gps <= log[k].gps && log[k].End() <= log[|log| - 1].End()
  {
    if from < k {
      OrderedApart(log, from, k);
    }
    if k < |log| - 1 {
      OrderedApart(log, k, |log| - 1);
    }
  }

  /** The global times are the true extremes over the files that are kept. */
  lemma TimesAreExtremes(dirs: seq<Dir>, log: seq<File>, entered: nat, perDir: nat,
                         curUpdateDir: int, minTime: int, maxTime: int)
    requires IndexOk(dirs, log, entered, perDir, curUpdateDir, minTime, maxTime) && Ordered(log) && log != []
    ensures var from := FirstKept(entered, perDir, |dirs|);
      && from < |log| && minTime == log[from].gps && maxTime == log[|log| - 1].End()
      && forall k :: from <= k < |log| ==> minTime <= log[k].gps && log[k].End() <= maxTime
  {
    var from := FirstKept(entered, perDir, |dirs|);
    KeptBound(|log|, entered, perDir, |dirs|);
    forall k | from <= k < |log| ensures log[from].gps <= log[k].gps && log[k].End() <= log[|log| - 1].End() {
      Extremes(log, from, k);
    }
  }

  lemma OrderedSlice(log: seq<File>, a: nat, b: nat)
    requires Ordered(log) && a <= b <= |log|
    ensures Ordered(log[a..b])
  {
    var s := log[a..b];
    assert forall k :: 0 <= k < |s| ==> s[k] == log[a + k];
    forall k | 0 < k < |s| ensures s[k - 1].End() <= s[k].gps {
      assert s[k - 1] == log[a + k - 1];
    }
  }

  // ---- the linear search the lookup has to agree with ---------------------------------------

  /** The first file from position k on that covers second t, or -1. */
  function Search(log: seq<File>, k: nat, t: int): (r: int)
    requires k <= |log|
    ensures -1 <= r < |log|
    ensures r >= 0 ==> r >= k && log[r].Covers(t)
    ensures r < 0 ==> forall i :: k <= i < |log| ==> !log[i].Covers(t)
    decreases |log| - k
  {
    if k == |log| then -1 else if log[k].Covers(t) then k else Search(log, k + 1, t)
  }

  /** The directory entry a position belongs to. */
  function EntryOf(k: nat, perDir: nat): nat
    requires perDir > 0
  {
    if k < perDir then 0 else 1 + EntryOf(k - perDir, perDir)
  }

  lemma {:induction false} EntryBounds(k: nat, perDir: nat)
    requires perDir > 0
    ensures Start(EntryOf(k, perDir), perDir) <= k < Start(EntryOf(k, perDir) + 1, perDir)
  {
    if k >= perDir {
      EntryBounds(k - perDir, perDir);
      StartShift(EntryOf(k - perDir, perDir), perDir);
      StartShift(EntryOf(k - perDir, perDir) + 1, perDir);
    }
  }

  lemma {:induction false} StartShift(e: nat, perDir: nat)
    ensures Start(e + 1, perDir) == Start(e, perDir) + perDir
  {
  }

  lemma EntryUnique(k: nat, e: nat, perDir: nat)
    requires perDir > 0 && Start(e, perDir) <= k < Start(e + 1, perDir)
    ensures EntryOf(k, perDir) == e
  {
    EntryBounds(k, perDir);
    var o := EntryOf(k, perDir);
    if o < e {
      StartMonotone(o + 1, e, perDir);
    } else if e < o {
      StartMonotone(e + 1, o, perDir);
    }
  }

  /** The directory that holds the file at position k. */
  function Holder(k: nat, perDir: nat, numDirs: nat): nat
    requires perDir > 0 && numDirs > 0
  {
    Idx(EntryOf(k, perDir), numDirs)
  }

  predicate InTime(d: Dir, t: int) {
    d.minTime <= t < d.maxTime
  }

  ghost predicate RangeHit(chain: seq<Block>, t: int, gps: int, secs: int) {
    exists i, j :: 0 <= i < |chain| && 0 <= j < |chain[i]| && chain[i][j].Hit(t) &&
      chain[i][j].secs > 0 && gps == StartOf(chain[i][j], t) && secs == chain[i][j].secs
  }

  /** A kept file is found in the directory that holds it. */
  lemma FileIsHeld(dirs: seq<Dir>, log: seq<File>, entered: nat, perDir: nat, k: nat, t: int)
    requires Holds(dirs, log, entered, perDir) && perDir > 0
    requires Ordered(log) && KeptSteady(log, entered, perDir, |dirs|)
    requires FirstKept(entered, perDir, |dirs|) <= k < |log| && log[k].Covers(t)
    ensures var d := dirs[Holder(k, perDir, |dirs|)]; InTime(d, t) && SomeHit(d.blist, t)
  {
    var e := EntryOf(k, perDir);
    EntryBounds(k, perDir);
    EntryInReach(|log|, entered, perDir, |dirs|, k);
    EntryIsHeld(dirs, log, entered, perDir, e);
    InBatch(log, entered, perDir, e, k);
    BatchSteady(log, entered, perDir, |dirs|, e);
    BatchAnswers(Batch(log, entered, perDir, e), k - Start(e, perDir), t);
  }

  lemma EntryIsHeld(dirs: seq<Dir>, log: seq<File>, entered: nat, perDir: nat, e: nat)
    requires Holds(dirs, log, entered, perDir) && Oldest(entered, |dirs|) <= e < entered
    ensures dirs[Idx(e, |dirs|)] == DirOf(Batch(log, entered, perDir, e))
  {
    OwnOfIdx(entered, |dirs|, e);
    assert dirs[Idx(e, |dirs|)] == Held(log, entered, perDir, |dirs|, Idx(e, |dirs|));
  }

  lemma BatchAnswers(b: seq<File>, i: nat, t: int)
    requires Steady(b) && i < |b| && b[i].Covers(t)
    ensures InTime(DirOf(b), t) && SomeHit(Chain(b), t)
  {
    ChainAgrees(b);
    Extremes(b, 0, i);
  }

  lemma InBatch(log: seq<File>, entered: nat, perDir: nat, e: nat, k: nat)
    requires Entered(|log|, entered, perDir) && e < entered && Start(e, perDir) <= k < Start(e + 1, perDir) && k < |log|
    ensures var b := Batch(log, entered, perDir, e);
      k - Start(e, perDir) < |b| && b[k - Start(e, perDir)] == log[k]
  {
    BatchIs(log, entered, perDir, e);
  }

  /** The m-th file of a batch, as a position in the log. */
  lemma BatchPosition(log: seq<File>, entered: nat, perDir: nat, numDirs: nat, e: nat, m: nat)
    requires Entered(|log|, entered, perDir) && perDir > 0 && numDirs >= 2 && Oldest(entered, numDirs) <= e < entered
    requires m < |Batch(log, entered, perDir, e)|
    ensures var k := Start(e, perDir) + m;
      FirstKept(entered, perDir, numDirs) <= k < |log| && log[k] == Batch(log, entered, perDir, e)[m] &&
      EntryOf(k, perDir) == e
  {
    BatchIs(log, entered, perDir, e);
    StartMonotone(Oldest(entered, numDirs), e, perDir);
    EntryUnique(Start(e, perDir) + m, e, perDir);
  }

  lemma BatchIs(log: seq<File>, entered: nat, perDir: nat, e: nat)
    requires Entered(|log|, entered, perDir) && e < entered
    ensures var b := Batch(log, entered, perDir, e);
      Start(e, perDir) + |b| <= |log| && b == log[Start(e, perDir)..Start(e, perDir) + |b|] &&
      |b| <= perDir
  {
    StartMonotone(e, entered - 1, perDir);
    if e + 1 < entered {
      StartMonotone(e + 1, entered - 1, perDir);
    }
  }

  lemma BatchOrdered(log: seq<File>, entered: nat, perDir: nat, e: nat)
    requires Entered(|log|, entered, perDir) && e < entered && Ordered(log)
    ensures Ordered(Batch(log, entered, perDir, e))
  {
    BatchIs(log, entered, perDir, e);
    OrderedSlice(log, Start(e, perDir), Start(e, perDir) + |Batch(log, entered, perDir, e)|);
  }

  /** If the file at position k touches the one before it in the same directory, it is as long. */
  ghost predicate AsLong(log: seq<File>, perDir: nat, k: int)
    requires perDir > 0 && 0 < k < |log|
  {
    EntryOf(k - 1, perDir) == EntryOf(k, perDir) && log[k - 1].End() == log[k].gps ==> log[k - 1].secs == log[k].secs
  }

  /** Kept files that touch inside one directory are equally long. */
  ghost predicate KeptSteady(log: seq<File>, entered: nat, perDir: nat, numDirs: nat)
    requires perDir > 0
  {
    forall k :: FirstKept(entered, perDir, numDirs) < k < |log| ==> AsLong(log, perDir, k)
  }

  lemma BatchSteady(log: seq<File>, entered: nat, perDir: nat, numDirs: nat, e: nat)
    requires Entered(|log|, entered, perDir) && perDir > 0 && numDirs >= 2 && Oldest(entered, numDirs) <= e < entered
    requires Ordered(log) && KeptSteady(log, entered, perDir, numDirs)
    ensures Steady(Batch(log, entered, perDir, e))
  {
    var b := Batch(log, entered, perDir, e);
    BatchOrdered(log, entered, perDir, e);
    forall m | 0 < m < |b| && b[m - 1].End() == b[m].gps ensures b[m - 1].secs == b[m].secs {
      BatchPosition(log, entered, perDir, numDirs, e, m - 1);
      BatchPosition(log, entered, perDir, numDirs, e, m);
      assert AsLong(log, perDir, Start(e, perDir) + m);
    }
  }

  lemma UnsteadyBatch(log: seq<File>, entered: nat, perDir: nat, numDirs: nat) returns (e: nat)
    requires Entered(|log|, entered, perDir) && perDir > 0 && numDirs >= 2
    requires !KeptSteady(log, entered, perDir, numDirs)
    ensures Oldest(entered, numDirs) <= e < entered && !Steady(Batch(log, entered, perDir, e))
  {
    var k :| FirstKept(entered, perDir, numDirs) < k < |log| && !AsLong(log, perDir, k);
    e := EntryOf(k, perDir);
    EntryBounds(k, perDir);
    EntryBounds(k - 1, perDir);
    EntryInReach(|log|, entered, perDir, numDirs, k);
    InBatch(log, entered, perDir, e, k);
    InBatch(log, entered, perDir, e, k - 1);
    var b, m := Batch(log, entered, perDir, e), k - Start(e, perDir);
    assert b[m - 1].End() == b[m].gps && b[m - 1].secs != b[m].secs;
  }

  lemma EntryInReach(n: nat, entered: nat, perDir: nat, numDirs: nat, k: nat)
    requires Entered(n, entered, perDir) && perDir > 0 && numDirs >= 2
    requires FirstKept(entered, perDir, numDirs) <= k < n
    ensures Oldest(entered, numDirs) <= EntryOf(k, perDir) < entered
  {
    var e := EntryOf(k, perDir);
    EntryBounds(k, perDir);
    if e >= entered {
      StartMonotone(entered, e, perDir);
    }
    if e < Oldest(entered, numDirs) {
      StartMonotone(e + 1, Oldest(entered, numDirs), perDir);
    }
  }

  /** The entry a nonempty directory holds. */
  lemma HeldIsBatch(dirs: seq<Dir>, log: seq<File>, entered: nat, perDir: nat, d: nat, t: int)
    requires Holds(dirs, log, entered, perDir) && d < |dirs| && InTime(dirs[d], t)
    ensures var e := Own(entered, |dirs|, d);
      Oldest(entered, |dirs|) <= e < entered && e >= 0 && dirs[d] == DirOf(Batch(log, entered, perDir, e)) &&
      Idx(e, |dirs|) == d
  {
    assert dirs[d] == Held(log, entered, perDir, |dirs|, d);
    assert Own(entered, |dirs|, d) >= 0;
    OwnIsSlot(entered, |dirs|, d);
  }

  lemma NamedFile(b: seq<File>, gps: int, secs: int, t: int) returns (m: nat)
    requires Steady(b) && RangeHit(Chain(b), t, gps, secs)
    ensures m < |b| && b[m] == File(gps, secs) && b[m].Covers(t)
  {
    ChainAgrees(b);
    var chain: seq<Block> := Chain(b);
    var i, j :| 0 <= i < |chain| && 0 <= j < |chain[i]| && chain[i][j].Hit(t) &&
      chain[i][j].secs > 0 && gps == StartOf(chain[i][j], t) && secs == chain[i][j].secs;
    assert FileOf(b, gps, secs, t);
    m :| 0 <= m < |b| && b[m] == File(gps, secs) && b[m].Covers(t);
  }

  lemma HitInBatch(log: seq<File>, entered: nat, perDir: nat, numDirs: nat, e: nat, t: int, gps: int, secs: int)
    returns (k: nat)
    requires Entered(|log|, entered, perDir) && perDir > 0 && numDirs >= 2 && Oldest(entered, numDirs) <= e < entered
    requires Steady(Batch(log, entered, perDir, e))
    requires RangeHit(Chain(Batch(log, entered, perDir, e)), t, gps, secs)
    ensures FirstKept(entered, perDir, numDirs) <= k < |log| && log[k] == File(gps, secs) && log[k].Covers(t)
    ensures EntryOf(k, perDir) == e
  {
    var m := NamedFile(Batch(log, entered, perDir, e), gps, secs, t);
    BatchPosition(log, entered, perDir, numDirs, e, m);
    k := Start(e, perDir) + m;
  }

  /** What is found is a kept file, in the directory that holds it. */
  lemma HitIsFile(dirs: seq<Dir>, log: seq<File>, entered: nat, perDir: nat, d: nat, t: int, gps: int, secs: int)
    returns (k: nat)
    requires Holds(dirs, log, entered, perDir) && perDir > 0
    requires Ordered(log) && KeptSteady(log, entered, perDir, |dirs|)
    requires d < |dirs| && InTime(dirs[d], t) && RangeHit(dirs[d].blist, t, gps, secs)
    ensures FirstKept(entered, perDir, |dirs|) <= k < |log| && log[k] == File(gps, secs) && log[k].Covers(t)
    ensures Holder(k, perDir, |dirs|) == d
  {
    HeldIsBatch(dirs, log, entered, perDir, d, t);
    BatchSteady(log, entered, perDir, |dirs|, Own(entered, |dirs|, d));
    k := HitInBatch(log, entered, perDir, |dirs|, Own(entered, |dirs|, d), t, gps, secs);
  }

  /** At most one directory covers a second. */
  lemma OneInTime(dirs: seq<Dir>, log: seq<File>, entered: nat, perDir: nat, a: nat, b: nat, t: int)
    requires Holds(dirs, log, entered, perDir) && Ordered(log)
    requires a < |dirs| && b < |dirs| && InTime(dirs[a], t) && InTime(dirs[b], t)
    ensures a == b
  {
    HeldIsBatch(dirs, log, entered, perDir, a, t);
    HeldIsBatch(dirs, log, entered, perDir, b, t);
    var ea, eb := Own(entered, |dirs|, a), Own(entered, |dirs|, b);
    if ea < eb {
      BatchesApart(log, entered, perDir, ea, eb);
    } else if eb < ea {
      BatchesApart(log, entered, perDir, eb, ea);
    }
  }

  lemma BatchesApart(log: seq<File>, entered: nat, perDir: nat, a: nat, b: nat)
    requires Entered(|log|, entered, perDir) && Ordered(log) && a < b < entered
    ensures DirOf(Batch(log, entered, perDir, a)).maxTime <= DirOf(Batch(log, entered, perDir, b)).minTime
  {
    BatchIs(log, entered, perDir, a);
    BatchIs(log, entered, perDir, b);
    StartMonotone(a, b, perDir);
    OrderedApart(log, Start(a, perDir) + |Batch(log, entered, perDir, a)| - 1, Start(b, perDir));
  }

  /** What dir_number may answer for second t, whatever its hint: directory, start and length of the
      file by a range that has t in a directory that has t, or -1 if no directory has it or one has it in
      no range. */
  ghost predicate Answer(dirs: seq<Dir>, t: int, d: int, gps: int, secs: int) {
    if d >= 0 then d < |dirs| && InTime(dirs[d], t) && RangeHit(dirs[d].blist, t, gps, secs)
    else
      d == -1 &&
      ((forall k :: 0 <= k < |dirs| ==> !InTime(dirs[k], t)) ||
       exists k :: 0 <= k < |dirs| && InTime(dirs[k], t) && !SomeHit(dirs[k].blist, t))
  }

  /** What a search over the kept files answers. */
  ghost predicate TrueAnswer(log: seq<File>, entered: nat, perDir: nat, numDirs: nat,
                             t: int, d: int, gps: int, secs: int)
    requires perDir > 0 && numDirs > 0 && FirstKept(entered, perDir, numDirs) <= |log|
  {
    var k := Search(log, FirstKept(entered, perDir, numDirs), t);
    if k < 0 then d == -1 else d == Holder(k, perDir, numDirs) && gps == log[k].gps && secs == log[k].secs
  }

  lemma LookupIsSearch(dirs: seq<Dir>, log: seq<File>, entered: nat, perDir: nat, t: int,
                       d: int, gps: int, secs: int)
    requires Holds(dirs, log, entered, perDir) && perDir > 0 && FirstKept(entered, perDir, |dirs|) <= |log|
    requires Ordered(log) && KeptSteady(log, entered, perDir, |dirs|)
    requires Answer(dirs, t, d, gps, secs)
    ensures TrueAnswer(log, entered, perDir, |dirs|, t, d, gps, secs)
  {
    var k := Search(log, FirstKept(entered, perDir, |dirs|), t);
    if d >= 0 {
      var m := HitIsFile(dirs, log, entered, perDir, d, t, gps, secs);
      assert k >= 0;
      OneCovers(log, k, m, t);
    } else if k >= 0 {
      FileIsHeld(dirs, log, entered, perDir, k, t);
      var h := Holder(k, perDir, |dirs|);
      var o :| 0 <= o < |dirs| && InTime(dirs[o], t) && !SomeHit(dirs[o].blist, t);
      OneInTime(dirs, log, entered, perDir, h, o, t);
    }
  }

  /** Every possible answer for second t is wrong. */
  ghost predicate NeverTrue(dirs: seq<Dir>, log: seq<File>, entered: nat, perDir: nat, t: int)
    requires perDir > 0 && |dirs| > 0 && FirstKept(entered, perDir, |dirs|) <= |log|
  {
    forall d, gps, secs :: Answer(dirs, t, d, gps, secs) ==>
      !TrueAnswer(log, entered, perDir, |dirs|, t, d, gps, secs)
  }

  /** A directory with touching files of different lengths gives a wrong answer for the start of one. */
  lemma WrongInBatch(dirs: seq<Dir>, log: seq<File>, entered: nat, perDir: nat, e: nat) returns (t: int)
    requires Holds(dirs, log, entered, perDir) && perDir > 0 && FirstKept(entered, perDir, |dirs|) <= |log|
    requires Ordered(log) && Oldest(entered, |dirs|) <= e < entered && !Steady(Batch(log, entered, perDir, e))
    ensures NeverTrue(dirs, log, entered, perDir, t)
  {
    BatchOrdered(log, entered, perDir, e);
    var s, m := WrongInChain(Batch(log, entered, perDir, e));
    BatchPosition(log, entered, perDir, |dirs|, e, m);
    EntryIsHeld(dirs, log, entered, perDir, e);
    WrongAt(dirs, log, entered, perDir, Idx(e, |dirs|), Start(e, perDir) + m, s);
    t := log[Start(e, perDir) + m].gps;
  }

  lemma WrongInChain(b: seq<File>) returns (s: int, m: nat)
    requires Ordered(b) && !Steady(b)
    ensures m < |b| && InTime(DirOf(b), b[m].gps) && LooksUp(Chain(b), b[m].gps, s) && s != b[m].secs
  {
    m := FirstUnsteady(b);
    s := b[m - 1].secs;
    TouchingDiffer(b, m);
    Extremes(b, 0, m);
  }

  lemma WrongAt(dirs: seq<Dir>, log: seq<File>, entered: nat, perDir: nat, h: nat, k: nat, s: int)
    requires Holds(dirs, log, entered, perDir) && perDir > 0 && Ordered(log)
    requires FirstKept(entered, perDir, |dirs|) <= k < |log| && s != log[k].secs
    requires h < |dirs| && InTime(dirs[h], log[k].gps) && LooksUp(dirs[h].blist, log[k].gps, s)
    ensures NeverTrue(dirs, log, entered, perDir, log[k].gps)
  {
    var t := log[k].gps;
    var found := Search(log, FirstKept(entered, perDir, |dirs|), t);
    assert log[k].Covers(t);
    OneCovers(log, found, k, t);
    forall d, gps, secs | Answer(dirs, t, d, gps, secs)
      ensures !TrueAnswer(log, entered, perDir, |dirs|, t, d, gps, secs)
    {
      if d >= 0 {
        OneInTime(dirs, log, entered, perDir, d, h, t);
      }
    }
  }

  lemma SomeAnswer(dirs: seq<Dir>, log: seq<File>, entered: nat, perDir: nat, t: int)
    requires Holds(dirs, log, entered, perDir) && Ordered(log)
    ensures exists d, gps, secs :: Answer(dirs, t, d, gps, secs)
  {
    if d :| 0 <= d < |dirs| && InTime(dirs[d], t) {
      HeldLengths(dirs, log, entered, perDir, d);
      var chain: seq<Block> := dirs[d].blist;
      if i, j :| 0 <= i < |chain| && 0 <= j < |chain[i]| && chain[i][j].Hit(t) {
        assert RangeHit(chain, t, StartOf(chain[i][j], t), chain[i][j].secs);
        assert Answer(dirs, t, d, StartOf(chain[i][j], t), chain[i][j].secs);
      } else {
        assert Answer(dirs, t, -1, 0, 0);
      }
    } else {
      assert Answer(dirs, t, -1, 0, 0);
    }
  }

  /** For files saved in order, the directories answer every second as the kept files would if and only
      if kept files that touch inside one directory are equally long. */
  lemma LookupExact(dirs: seq<Dir>, log: seq<File>, entered: nat, perDir: nat)
    requires Holds(dirs, log, entered, perDir) && perDir > 0 && Ordered(log)
    ensures FirstKept(entered, perDir, |dirs|) <= |log|
    ensures KeptSteady(log, entered, perDir, |dirs|) <==>
      forall t, d, gps, secs :: Answer(dirs, t, d, gps, secs) ==>
        TrueAnswer(log, entered, perDir, |dirs|, t, d, gps, secs)
    ensures !KeptSteady(log, entered, perDir, |dirs|) ==>
      exists t :: NeverTrue(dirs, log, entered, perDir, t)
  {
    KeptBound(|log|, entered, perDir, |dirs|);
    if KeptSteady(log, entered, perDir, |dirs|) {
      forall t, d, gps, secs | Answer(dirs, t, d, gps, secs)
        ensures TrueAnswer(log, entered, perDir, |dirs|, t, d, gps, secs)
      {
        LookupIsSearch(dirs, log, entered, perDir, t, d, gps, secs);
      }
    } else {
      var e := UnsteadyBatch(log, entered, perDir, |dirs|);
      var t := WrongInBatch(dirs, log, entered, perDir, e);
      assert NeverTrue(dirs, log, entered, perDir, t);
      SomeAnswer(dirs, log, entered, perDir, t);
    }
  }

  lemma HeldLengths(dirs: seq<Dir>, log: seq<File>, entered: nat, perDir: nat, d: nat)
    requires Holds(dirs, log, entered, perDir) && d < |dirs|
    requires forall k :: 0 <= k < |log| ==> log[k].secs > 0
    ensures Lengths(dirs[d].blist)
  {
    var e := Own(entered, |dirs|, d);
    assert dirs[d] == Held(log, entered, perDir, |dirs|, d);
    if e >= 0 && e >= Oldest(entered, |dirs|) {
      BatchIs(log, entered, perDir, e);
      ChainLengths(Batch(log, entered, perDir, e));
    }
  }

  /** The k-th directory of a round that starts at `from`. */
  function Around(from: nat, k: nat, n: nat): (r: nat)
    requires from < n && k <= n
    ensures r < n
  {
    if from + k < n then from + k else from + k - n
  }

  lemma NoneInTime(dirs: seq<Dir>, t: int, from: nat)
    requires from < |dirs|
    requires forall k: nat :: k < |dirs| ==> !InTime(dirs[Around(from, k, |dirs|)], t)
    ensures forall k :: 0 <= k < |dirs| ==> !InTime(dirs[k], t)
  {
    forall j | 0 <= j < |dirs| ensures !InTime(dirs[j], t) {
      var k := if from <= j then j - from else j - from + |dirs|;
      assert Around(from, k, |dirs|) == j;
    }
  }

  /** The files of the directories entered from the e-th on, one directory after the other. */
  function KeptFrom(log: seq<File>, entered: nat, perDir: nat, e: nat): seq<File>
    requires Entered(|log|, entered, perDir) && e <= entered
    decreases entered - e
  {
    if e == entered then [] else Batch(log, entered, perDir, e) + KeptFrom(log, entered, perDir, e + 1)
  }

  lemma {:induction false} KeptFromIs(log: seq<File>, entered: nat, perDir: nat, e: nat)
    requires Entered(|log|, entered, perDir) && e < entered
    ensures Start(e, perDir) <= |log| && KeptFrom(log, entered, perDir, e) == log[Start(e, perDir)..]
    decreases entered - e
  {
    BatchIs(log, entered, perDir, e);
    var b := Batch(log, entered, perDir, e);
    if e + 1 < entered {
      KeptFromIs(log, entered, perDir, e + 1);
      TwoSlices(log, Start(e, perDir), b);
    } else {
      assert KeptFrom(log, entered, perDir, e + 1) == [];
      assert b + [] == b;
    }
  }

  lemma TwoSlices(log: seq<File>, at: nat, b: seq<File>)
    requires at + |b| <= |log| && b == log[at..at + |b|]
    ensures b + log[at + |b|..] == log[at..]
  {
  }

  /** Every directory entered and not cleaned again holds its files. */
  ghost predicate KeptInDirs(dirs: seq<Dir>, log: seq<File>, entered: nat, perDir: nat)
    requires Entered(|log|, entered, perDir) && |dirs| > 0
  {
    forall e: nat {:trigger Batch(log, entered, perDir, e)} :: Oldest(entered, |dirs|) <= e < entered ==>
      dirs[Idx(e, |dirs|)] == DirOf(Batch(log, entered, perDir, e))
  }

  lemma AllInDirs(dirs: seq<Dir>, log: seq<File>, entered: nat, perDir: nat)
    requires Holds(dirs, log, entered, perDir)
    ensures KeptInDirs(dirs, log, entered, perDir)
  {
    forall e: nat {:trigger Batch(log, entered, perDir, e)} | Oldest(entered, |dirs|) <= e < entered
      ensures dirs[Idx(e, |dirs|)] == DirOf(Batch(log, entered, perDir, e))
    {
      EntryIsHeld(dirs, log, entered, perDir, e);
    }
  }

  /** What is kept is the newest part of everything saved: the directories not cleaned hold, in the order
      in which they were entered, exactly the files from FirstKept on. There is room for numDirs - 1
      directories of them, and once the ring is full more than numDirs - 2 are kept. */
  lemma KeptIsSuffix(dirs: seq<Dir>, log: seq<File>, entered: nat, perDir: nat)
    requires Holds(dirs, log, entered, perDir) && perDir > 0 && log != []
    ensures KeptInDirs(dirs, log, entered, perDir)
    ensures var from := FirstKept(entered, perDir, |dirs|);
      && from <= |log| && KeptFrom(log, entered, perDir, Oldest(entered, |dirs|)) == log[from..]
      && |log| - from <= (|dirs| - 1) * perDir
      && (entered + 1 > |dirs| ==> |log| - from > (|dirs| - 2) * perDir)
      && (entered + 1 <= |dirs| ==> from == 0)
  {
    AllInDirs(dirs, log, entered, perDir);
    KeptFromIs(log, entered, perDir, Oldest(entered, |dirs|));
    KeptFiles(|log|, entered, perDir, |dirs|);
  }

  lemma KeptFiles(n: nat, entered: nat, perDir: nat, numDirs: nat)
    requires Entered(n, entered, perDir) && perDir > 0 && numDirs >= 2 && entered > 0
    ensures var kept := n - FirstKept(entered, perDir, numDirs);
      && kept <= (numDirs - 1) * perDir
      && (entered + 1 > numDirs ==> kept > (numDirs - 2) * perDir)
      && (entered + 1 <= numDirs ==> FirstKept(entered, perDir, numDirs) == 0)
  {
    StartIs(numDirs - 1, perDir);
    StartIs(numDirs - 2, perDir);
    KeptRoom(n, entered, perDir, numDirs);
  }

  /** All other directories are empty. */
  lemma OthersEmpty(dirs: seq<Dir>, log: seq<File>, entered: nat, perDir: nat, k: nat)
    requires Holds(dirs, log, entered, perDir) && k < |dirs|
    requires forall e: nat :: Oldest(entered, |dirs|) <= e < entered ==> Idx(e, |dirs|) != k
    ensures dirs[k] == NO_FILES
  {
    assert dirs[k] == Held(log, entered, perDir, |dirs|, k);
    if Own(entered, |dirs|, k) >= 0 {
      OwnIsSlot(entered, |dirs|, k);
    }
  }

  lemma KeptRoom(n: nat, entered: nat, perDir: nat, numDirs: nat)
    requires Entered(n, entered, perDir) && perDir > 0 && numDirs >= 2 && entered > 0
    ensures var kept := n - FirstKept(entered, perDir, numDirs);
      && kept <= Start(numDirs - 1, perDir)
      && (entered + 1 > numDirs ==> kept > Start(numDirs - 2, perDir))
      && (entered + 1 <= numDirs ==> FirstKept(entered, perDir, numDirs) == 0)
  {
    var o := Oldest(entered, numDirs);
    StartAdds(o, entered - o, perDir);
    StartAdds(o, entered - 1 - o, perDir);
    StartMonotone(entered - o, numDirs - 1, perDir);
  }

  lemma {:induction false} StartAdds(a: nat, b: nat, perDir: nat)
    ensures Start(a + b, perDir) == Start(a, perDir) + Start(b, perDir)
    decreases b
  {
    if b > 0 {
      StartAdds(a, b - 1, perDir);
    }
  }
}
