/** The map from GPS time to directory and file (`filesys_c`). */
module FileSys {
  import opened Ring
  import opened TimeRanges
  import opened FileIndex

  class FileMap {
    var dirs: seq<Dir>             // dir[0 .. num_dirs)
    var minTime: int
    var maxTime: int
    var curDir: nat
    var curUpdateDir: int
    const filesPerDir: nat
    var framesSaved: nat
    ghost var log: seq<File>       // every file saved
    ghost var entered: nat         // directories entered so far

    /** The index holds what it has to hold for the files saved so far. */
    ghost predicate Valid()
      reads this
    {
      && IndexOk(dirs, log, entered, filesPerDir, curUpdateDir, minTime, maxTime)
      && curDir < |dirs|
      && framesSaved == |log|
    }

    constructor (numDirs: nat, perDir: nat)
      requires numDirs >= 2 && perDir > 0
      ensures Valid() && log == [] && |dirs| == numDirs && filesPerDir == perDir
    {
      dirs := seq(numDirs, _ => NO_FILES);
      minTime, maxTime, curDir, curUpdateDir, framesSaved := 0, 0, 0, -1, 0;
      filesPerDir := perDir;
      log, entered := [], 0;
      new;
      assert forall k :: 0 <= k < |dirs| ==> Held(log, entered, filesPerDir, |dirs|, k) == NO_FILES;
    }

    /** The directory choice of getDirFileNames and dir_fname. */
    method ChooseDir() returns (dnum: nat)
      requires Valid()
      ensures dnum == Choice(|log|, entered, filesPerDir, |dirs|)
    {
      dnum := 0;
      if curUpdateDir > -1 {
        dnum := curUpdateDir;
        EntryIsHeld(dirs, log, entered, filesPerDir, entered - 1);
        FullMeans(log, entered, filesPerDir);
        if dirs[curUpdateDir].nfiles >= filesPerDir {
          dnum := (dnum + 1) % |dirs|;
          SuccIsMod(curUpdateDir, |dirs|);
        }
      }
    }

    /** `blist.remove()` until the list is empty, and the directory's fields zeroed. */
    method CleanDir(k: nat)
      requires k < |dirs|
      modifies `dirs
      ensures dirs == old(dirs)[k := NO_FILES]
    {
      dirs := dirs[k := dirs[k].(nfiles := 0, minTime := 0, maxTime := 0)];
      while dirs[k].blist != []
        invariant |dirs| == old(|dirs|) && dirs == old(dirs)[k := Dir(0, 0, 0, dirs[k].blist)]
        decreases |dirs[k].blist|
      {
        dirs := dirs[k := dirs[k].(blist := dirs[k].blist[1..])];
      }
    }

    /** The range logic of _update_dir. */
    method PutRange(f: File, dnum: nat)
      requires dnum < |dirs| && Blocks(dirs[dnum].blist)
      modifies `dirs
      ensures dirs == old(dirs)[dnum := old(dirs[dnum]).(blist := AddFile(old(dirs[dnum].blist), f))]
    {
      var list := dirs[dnum].blist;
      if list == [] {
        list := [[NewRange(f)]] + list;
      } else if Current(list).max == f.gps {
        var r := Current(list);
        list := SetCurrent(list, r.(max := r.max + r.secs));
      } else if |list[0]| >= MAX_RANGES {
        list := [[NewRange(f)]] + list;
      } else {
        list := list[0 := list[0] + [NewRange(f)]];
      }
      dirs := dirs[dnum := dirs[dnum].(blist := list)];
    }

    /** _update_dir just switched to directory dnum. */
    method EnterDir(gps: int, dnum: nat)
      requires |dirs| >= 2 && dnum < |dirs|
      modifies `dirs, `minTime, `curUpdateDir
      ensures curUpdateDir == dnum && |dirs| == old(|dirs|)
      ensures var next := Succ(dnum, |dirs|);
        && dirs == old(dirs)[next := NO_FILES][dnum := old(dirs[dnum]).(minTime := gps)]
        && minTime == if dirs[Succ(next, |dirs|)].minTime != 0 then dirs[Succ(next, |dirs|)].minTime
                      else old(minTime)
    {
      SuccIsMod(dnum, |dirs|);
      SuccSuccIsMod(dnum, |dirs|);
      curUpdateDir := dnum;
      dirs := dirs[dnum := dirs[dnum].(minTime := gps)];
      CleanDir((dnum + 1) % |dirs|);
      var yetNext := (dnum + 2) % |dirs|;
      if dirs[yetNext].minTime != 0 {
        minTime := dirs[yetNext].minTime;
      }
    }

    /** The part of _update_dir that deals with a directory not used before. */
    method SwitchDir(gps: int, dnum: nat)
      requires |dirs| >= 2 && dnum < |dirs| && (curUpdateDir != dnum ==> dirs[dnum] == NO_FILES)
      requires curUpdateDir < 0 ==> minTime == 0 && dirs[Succ(dnum, |dirs|)] == NO_FILES
      modifies `dirs, `minTime, `curUpdateDir
      ensures curUpdateDir == dnum && |dirs| == old(|dirs|)
      ensures old(curUpdateDir) == dnum ==> dirs == old(dirs) && minTime == old(minTime)
      ensures old(curUpdateDir) != dnum ==>
        var next := Succ(dnum, |dirs|);
        && dirs == old(dirs)[next := NO_FILES][dnum := NO_FILES.(minTime := gps)]
        && minTime == if old(curUpdateDir) < 0 then gps
                      else if dirs[Succ(next, |dirs|)].minTime != 0 then dirs[Succ(next, |dirs|)].minTime
                      else old(minTime)
    {
      if curUpdateDir < 0 {
        curUpdateDir := dnum;
        if dirs[dnum].minTime == 0 {
          dirs := dirs[dnum := dirs[dnum].(minTime := gps)];
        }
        if minTime == 0 {
          minTime := gps;
        }
      }
      if |dirs| > 1 && curUpdateDir != dnum {
        EnterDir(gps, dnum);
      }
    }

    /** _update_dir, as far as the fields are concerned. */
    method CountFile(f: File, dnum: nat)
      requires |dirs| >= 2 && dnum < |dirs| && (curUpdateDir != dnum ==> dirs[dnum] == NO_FILES)
      requires curUpdateDir < 0 ==> minTime == 0 && dirs[Succ(dnum, |dirs|)] == NO_FILES
      requires Blocks(dirs[dnum].blist)
      modifies `dirs, `minTime, `maxTime, `curUpdateDir, `framesSaved
      ensures curUpdateDir == dnum && maxTime == f.End() && framesSaved == old(framesSaved) + 1
      ensures |dirs| == old(|dirs|)
      ensures old(curUpdateDir) == dnum ==>
        dirs == old(dirs)[dnum := Counted(old(dirs[dnum]), f)] && minTime == old(minTime)
      ensures old(curUpdateDir) != dnum ==>
        var next := Succ(dnum, |dirs|);
        && dirs == old(dirs)[next := NO_FILES][dnum := Counted(NO_FILES.(minTime := f.gps), f)]
        && minTime == if old(curUpdateDir) < 0 then f.gps
                      else if dirs[Succ(next, |dirs|)].minTime != 0 then dirs[Succ(next, |dirs|)].minTime
                      else old(minTime)
    {
      SwitchDir(f.gps, dnum);
      PutRange(f, dnum);
      dirs := dirs[dnum := dirs[dnum].(nfiles := dirs[dnum].nfiles + 1, maxTime := f.gps + f.secs)];
      maxTime := f.gps + f.secs;
      framesSaved := framesSaved + 1;
    }

    /** _update_dir for the directory that ChooseDir picks. */
    method UpdateDir(f: File, dnum: nat)
      requires Valid() && f.gps > 0 && dnum == Choice(|log|, entered, filesPerDir, |dirs|)
      modifies this
      ensures Valid() && log == old(log) + [f] && |dirs| == old(|dirs|) && curDir == old(curDir)
      ensures entered == old(if |log| == Start(entered, filesPerDir) then entered + 1 else entered)
      ensures entered != old(entered) ==> old(dirs[dnum]) == NO_FILES
    {
      ghost var dirs0, min0, max0, cur0 := dirs, minTime, maxTime, curUpdateDir;
      BeforeUpdate(dirs0, log, entered, filesPerDir, cur0, min0, max0);
      CountFile(f, dnum);
      AfterUpdate(dirs0, log, f, entered, filesPerDir, cur0, min0, max0, dirs, dnum, minTime, maxTime);
      entered := if |log| == Start(entered, filesPerDir) then entered + 1 else entered;
      log := log + [f];
    }

    /** The two inner loops of dir_number: block by block, range by range. */
    method FindRange(list: seq<Block>, t: int) returns (found: bool, gps: int, secs: int)
      requires Lengths(list)
      ensures found ==> RangeHit(list, t, gps, secs)
      ensures !found ==> !SomeHit(list, t)
    {
      found, gps, secs := false, 0, 0;
      for i := 0 to |list|
        invariant forall a, b :: 0 <= a < i && 0 <= b < |list[a]| ==> !list[a][b].Hit(t)
      {
        for k := 0 to |list[i]|
          invariant forall b :: 0 <= b < k ==> !list[i][b].Hit(t)
        {
          var r := list[i][k];
          if r.min <= t && r.max > t {
            assert list[i][k].Hit(t);
            return true, r.min + (t - r.min) / r.secs * r.secs, r.secs;
          }
        }
      }
    }

    /** The outer loop of dir_number: the first directory, counting from the hint, whose time range
        has t in it, or -1. */
    method DirInTime(t: int) returns (fdir: int)
      requires curDir < |dirs|
      ensures -1 <= fdir < |dirs|
      ensures fdir >= 0 ==> InTime(dirs[fdir], t)
      ensures fdir < 0 ==> forall k :: 0 <= k < |dirs| ==> !InTime(dirs[k], t)
    {
      fdir := curDir;
      for i := 0 to |dirs|
        invariant fdir == Around(curDir, i, |dirs|)
        invariant forall k: nat :: k < i ==> !InTime(dirs[Around(curDir, k, |dirs|)], t)
      {
        if dirs[fdir].minTime <= t && dirs[fdir].maxTime > t {
          return;
        }
        SuccIsMod(fdir, |dirs|);
        fdir := (fdir + 1) % |dirs|;
      }
      NoneInTime(dirs, t, curDir);
      fdir := -1;
    }

    /** dir_number: the search starts at the directory of the last answer. tr0 and fsecs0 are what
        the caller's variables held. */
    method DirNumber(t: int, tr0: int, fsecs0: int) returns (d: int, tr: int, fsecs: int)
      requires Valid() && forall k :: 0 <= k < |log| ==> log[k].secs > 0
      modifies `curDir
      ensures Valid() && curDir == (if d >= 0 then d else old(curDir))
      ensures d < 0 ==> tr == tr0 && fsecs == fsecs0
      ensures Answer(dirs, t, d, tr, fsecs) && FirstKept(entered, filesPerDir, |dirs|) <= |log|
      ensures Ordered(log) && KeptSteady(log, entered, filesPerDir, |dirs|) ==>
        TrueAnswer(log, entered, filesPerDir, |dirs|, t, d, tr, fsecs)
    {
      KeptBound(|log|, entered, filesPerDir, |dirs|);
      d, tr, fsecs := -1, tr0, fsecs0;
      var fdir := DirInTime(t);
      if fdir >= 0 {
        HeldLengths(dirs, log, entered, filesPerDir, fdir);
        var found, gps, secs := FindRange(dirs[fdir].blist, t);
        if found {
          tr, fsecs := gps, secs;
          curDir := fdir;
          d := fdir;
        }
      }
      if Ordered(log) && KeptSteady(log, entered, filesPerDir, |dirs|) {
        LookupIsSearch(dirs, log, entered, filesPerDir, t, d, tr, fsecs);
      }
    }
  }
}
