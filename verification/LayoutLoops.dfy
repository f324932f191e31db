/** The two layout loops as the source runs them, over the tables of the `daqd` object. */
module LayoutLoops {
  import opened Layout

  lemma SetTwice(m: map<nat, int>, d: nat, x: int, y: int)
    ensures m[d := x][d := y] == m[d := y]
  {
  }

  lemma TestPointNext(site: Site, f: Plan, d: nat, j: nat, front: seq<Vec>, vs: seq<Vec>)
    requires vs == front + TestPointVecs(site, f, d, j)
    ensures vs + [TestPoint(site, f, d, j)] == front + TestPointVecs(site, f, d, j + 1)
  {
  }

  /** One turn of the second loop, in an array that has room for the whole plan. */
  lemma TurnFits(site: Site, chans: seq<Channel>, i: nat, room: nat)
    requires i < |chans| && RatesOk(site, chans) && |CopyPlan(site, chans)| <= room
    ensures |Copied(site, chans, i)| + |ClosingVecs(site, chans, i)| + (if chans[i].alias then 0 else 1) <= room
    ensures Copied(site, chans, i + 1) ==
            Copied(site, chans, i) + ClosingVecs(site, chans, i) +
            (if chans[i].alias then [] else [ChannelVec(site, chans, Final(site, chans), i)])
  {
    PlanGrows(site, chans, i, |chans|);
    CopyStep(site, chans, i);
  }

  /** What the last turn of the second loop adds. */
  lemma LastClosing(site: Site, chans: seq<Channel>)
    requires RatesOk(site, chans)
    ensures CopyPlan(site, chans) == Copied(site, chans, |chans|) + ClosingVecs(site, chans, |chans|)
  {
  }

  /** One channel's sizes, the status word of an EXC DCU added last. */
  lemma PlacedSize(m: map<nat, int>, c: Channel, site: Site)
    ensures var m1 := m[c.dcu := At(m, c.dcu) + Truncated(c.bytes, PARTS)];
      (if c.dcu in site.exc then m1[c.dcu := At(m1, c.dcu) + 4] else m1) ==
      m[c.dcu := At(m, c.dcu) + Truncated(c.bytes, PARTS) + Lead(site, c)]
  {
    if c.dcu in site.exc {
      SetTwice(m, c.dcu, At(m, c.dcu) + Truncated(c.bytes, PARTS), At(m, c.dcu) + Truncated(c.bytes, PARTS) + 4);
    }
  }

  class Daqd {
    const site: Site
    const chans: seq<Channel>
    const offset: array<int>       // channels[i].offset
    const rmOffset: array<int>     // channels[i].rm_offset
    var blockSize: int
    var dcuSize: map<nat, int>
    var daqSize: map<nat, int>
    var tpOffs: map<nat, int>
    var tpRm: map<nat, int>

    constructor (where: Site, channels: seq<Channel>)
      ensures site == where && chans == channels && Blank()
      ensures fresh(offset) && fresh(rmOffset)
    {
      site, chans, blockSize := where, channels, 0;
      dcuSize, daqSize, tpOffs, tpRm := map[], map[], map[], map[];
      offset := new int[|channels|](_ => 0);
      rmOffset := new int[|channels|](_ => 0);
    }

    /** Nothing has been laid out yet. */
    ghost predicate Blank()
      reads this, offset, rmOffset
    {
      && Sized() && blockSize == 0
      && dcuSize == map[] && daqSize == map[] && tpOffs == map[] && tpRm == map[]
      && (forall i :: 0 <= i < |chans| ==> offset[i] == 0 && rmOffset[i] == 0)
    }

    ghost predicate Sized()
      reads this
    {
      offset != rmOffset && offset.Length == |chans| && rmOffset.Length == |chans|
    }

    /** The fields and the loop variables as one value, for the first i channels. */
    ghost function State(offs: int, rm: int, cur: Option, i: nat): Plan
      requires Sized() && i <= |chans|
      reads this, offset, rmOffset
    {
      Plan(offs, rm, blockSize, cur, dcuSize, daqSize, tpOffs, tpRm, offset[..i], rmOffset[..i])
    }

    /** The fields after the first loop and the last addition to the block size. */
    ghost predicate LaidOut()
      reads this, offset, rmOffset
    {
      Sized() &&
      var f := Final(site, chans);
      && blockSize == BlockSize(site, chans)
      && dcuSize == f.dcuSize && daqSize == f.daqSize && tpOffs == f.tpOffs && tpRm == f.tpRm
      && offset[..] == f.offset && rmOffset[..] == f.rmOffset
    }

    /** The DCU ids the loop accepts. */
    predicate Standard(d: nat) {
      d in site.tp || d in site.myrinet
    }

    /** `Finished with cur_dcu` */
    method CloseDcu(offs0: int, rm0: int, d: nat, ghost i: nat) returns (offs: int, rm: int)
      requires Sized() && i <= |chans|
      modifies `blockSize, `dcuSize, `daqSize, `tpOffs, `tpRm
      ensures State(offs, rm, Some(d), i) == Close(site, old(State(offs0, rm0, Some(d), i)))
    {
      offs, rm := offs0, rm0;
      if d in site.myrinet {
        var size := At(dcuSize, d);
        daqSize := daqSize[d := size];
        tpOffs := tpOffs[d := offs];
        tpRm := tpRm[d := rm];
        var gap := 2 * site.dcuBlock * PARTS - size * PARTS;
        offs := offs + gap;
        blockSize := blockSize + gap;
        rm := rm + 2 * site.dcuBlock - size;
        dcuSize := dcuSize[d := 2 * site.dcuBlock];
      }
      if !(d in site.myrinet) {
        daqSize := daqSize[d := At(dcuSize, d)];
      }
    }

    /** Offsets of channel i. */
    method PlaceChannel(offs0: int, rm0: int, ghost cur: Option, i: nat) returns (offs: int, rm: int)
      requires Sized() && i < |chans| && offset[i] == 0 && rmOffset[i] == 0
      modifies `blockSize, `dcuSize, offset, rmOffset
      ensures State(offs, rm, Some(chans[i].dcu), i + 1) == Place(site, old(State(offs0, rm0, cur, i)), chans[i])
      ensures forall k :: i < k < |chans| ==> offset[k] == old(offset[k]) && rmOffset[k] == old(rmOffset[k])
    {
      ghost var p := State(offs0, rm0, cur, i);
      offs, rm := offs0, rm0;
      var c := chans[i];
      if c.alias {
        offset[i] := 0;
      } else {
        PlacedSize(dcuSize, c, site);
        offset[i] := offs;
        offs := offs + c.bytes;
        blockSize := blockSize + c.bytes;
        dcuSize := dcuSize[c.dcu := At(dcuSize, c.dcu) + Truncated(c.bytes, PARTS)];
        rmOffset[i] := rm;
        rm := rm + Truncated(c.bytes, PARTS);
        if c.dcu in site.exc {
          dcuSize := dcuSize[c.dcu := At(dcuSize, c.dcu) + 4];
          rm := rm + 4;
          rmOffset[i] := rmOffset[i] + 4;
        }
      }
      assert offset[..i + 1] == p.offset + [offset[i]];
      assert rmOffset[..i + 1] == p.rmOffset + [rmOffset[i]];
      assert dcuSize == Place(site, p, c).dcuSize;
    }

    /** One turn of the first loop. */
    method LayoutTurn(offs0: int, rm0: int, cur: Option, i: nat) returns (offs: int, rm: int)
      requires Sized() && i < |chans| && offset[i] == 0 && rmOffset[i] == 0
      modifies `blockSize, `dcuSize, `daqSize, `tpOffs, `tpRm, offset, rmOffset
      ensures State(offs, rm, Some(chans[i].dcu), i + 1) ==
        var p := old(State(offs0, rm0, cur, i));
        Place(site, if Finishes(chans, cur, i) then Close(site, p) else p, chans[i])
      ensures forall k :: i < k < |chans| ==> offset[k] == old(offset[k]) && rmOffset[k] == old(rmOffset[k])
    {
      offs, rm := offs0, rm0;
      if cur.Some? && cur.dcu != chans[i].dcu {
        offs, rm := CloseDcu(offs, rm, cur.dcu, i);
      }
      offs, rm := PlaceChannel(offs, rm, cur, i);
    }

    /** configure_channels_body_begin_end, as far as it lays out the block; not ok is exit(1). */
    method Configure(allowAny: bool) returns (ok: bool)
      requires Blank()
      modifies this, offset, rmOffset
      ensures ok <==>
        allowAny || forall k :: 0 <= k < |chans| ==> chans[k].dcu in site.tp || chans[k].dcu in site.myrinet
      ensures ok ==> LaidOut()
    {
      var offs, rm := 0, 0;
      var cur: Option := None;
      var n := |chans|;
      for i := 0 to n
        invariant Sized()
        invariant allowAny || forall k :: 0 <= k < i - 1 ==> Standard(chans[k].dcu)
        invariant State(offs, rm, cur, i) == Planned(site, chans, i)
        invariant forall k :: i <= k < n ==> offset[k] == 0 && rmOffset[k] == 0
      {
        if cur.Some? && !allowAny && !Standard(cur.dcu) {
          return false;
        }
        PlanStep(site, chans, i);
        offs, rm := LayoutTurn(offs, rm, cur, i);
        cur := Some(chans[i].dcu);
      }
      if cur.Some? && !allowAny && !Standard(cur.dcu) {
        return false;
      }
      if cur.Some? {
        offs, rm := CloseDcu(offs, rm, cur.dcu, n);
      }
      assert offset[..n] == offset[..] && rmOffset[..n] == rmOffset[..];
      blockSize := blockSize + STATUS_BYTES * n;
      ok := true;
    }

    /** The test points of a finished DCU, appended to the plan. */
    method AddTestPoints(pv: array<Vec>, len0: nat, d: nat) returns (len: nat)
      requires LaidOut() && site.Rate(d) >= 4
      requires var n := TestPoints(site, Final(site, chans), d);
        len0 + (if n < 0 then 0 else n) <= pv.Length
      modifies pv
      ensures var n := TestPoints(site, Final(site, chans), d);
        var vs := TestPointVecs(site, Final(site, chans), d, if n < 0 then 0 else n);
        len == len0 + |vs| && pv[..len] == old(pv[..len0]) + vs
    {
      ghost var f := Final(site, chans);
      var rate := 4 * site.Rate(d);
      var tpSize := rate / PARTS;
      var nAdd := Truncated(2 * site.dcuBlock - At(daqSize, d), tpSize);
      if nAdd > MAX_TP {
        nAdd := MAX_TP;
      }
      len := len0;
      ghost var n: nat := if nAdd < 0 then 0 else nAdd;
      var j: nat := 0;
      while j < nAdd
        invariant j <= n && len == len0 + j
        invariant pv[..len] == old(pv[..len0]) + TestPointVecs(site, f, d, j)
      {
        pv[len] := Vec(At(tpRm, d) + j * tpSize, At(tpOffs, d) + j * tpSize * PARTS, rate / 16, Zero, Nowhere);
        assert pv[len] == TestPoint(site, f, d, j);
        TestPointNext(site, f, d, j, old(pv[..len0]), pv[..len]);
        assert pv[..len + 1] == pv[..len] + [pv[len]];
        len := len + 1;
        j := j + 1;
      }
    }

    /** The vector of channel i, unless it is an alias. */
    method AddChannel(pv: array<Vec>, len0: nat, i: nat, statusPtr: int) returns (len: nat)
      requires LaidOut() && i < |chans| && statusPtr == StatusStart(site, chans)
      requires len0 + (if chans[i].alias then 0 else 1) <= pv.Length
      modifies pv
      ensures len == len0 + (if chans[i].alias then 0 else 1)
      ensures pv[..len] == old(pv[..len0]) +
        (if chans[i].alias then [] else [ChannelVec(site, chans, Final(site, chans), i)])
    {
      len := len0;
      var c := chans[i];
      if c.alias {
        return;
      }
      assert offset[i] == offset[..][i] && rmOffset[i] == rmOffset[..][i];
      var src := rmOffset[i];
      var status := if c.dcu in site.exc then InMoveBuffer(src - 4)
                    else if c.dcu in site.tp then Zero else OfDcu(c.dcu);
      pv[len] := Vec(src, offset[i], Truncated(c.bytes, 16), status, To(statusPtr + STATUS_BYTES * i));
      assert pv[..len + 1] == pv[..len] + [pv[len]];
      len := len + 1;
    }

    /** One turn of the second loop. */
    method CopyTurn(pv: array<Vec>, len0: nat, cur: Option, i: nat, statusPtr: int) returns (len: nat)
      requires LaidOut() && RatesOk(site, chans) && i < |chans| && statusPtr == StatusStart(site, chans)
      requires cur == if i == 0 then None else Some(chans[i - 1].dcu)
      requires len0 + |ClosingVecs(site, chans, i)| + (if chans[i].alias then 0 else 1) <= pv.Length
      modifies pv
      ensures len == len0 + |ClosingVecs(site, chans, i)| + (if chans[i].alias then 0 else 1)
      ensures pv[..len] == old(pv[..len0]) + ClosingVecs(site, chans, i) +
        (if chans[i].alias then [] else [ChannelVec(site, chans, Final(site, chans), i)])
    {
      len := len0;
      if cur.Some? && cur.dcu in site.myrinet && cur.dcu != chans[i].dcu {
        assert chans[i - 1] in chans;
        len := AddTestPoints(pv, len, cur.dcu);
      }
      len := AddChannel(pv, len, i, statusPtr);
    }

    /** The last turn of the second loop. */
    method LastTurn(pv: array<Vec>, len0: nat, cur: Option) returns (len: nat)
      requires LaidOut() && RatesOk(site, chans)
      requires cur == if chans == [] then None else Some(chans[|chans| - 1].dcu)
      requires len0 + |ClosingVecs(site, chans, |chans|)| <= pv.Length
      modifies pv
      ensures len == len0 + |ClosingVecs(site, chans, |chans|)|
      ensures pv[..len] == old(pv[..len0]) + ClosingVecs(site, chans, |chans|)
    {
      len := len0;
      if cur.Some? && cur.dcu in site.myrinet {
        assert chans[|chans| - 1] in chans;
        len := AddTestPoints(pv, len, cur.dcu);
      }
    }

    /** The second loop without its last turn. */
    method CopyTurns(pv: array<Vec>, statusPtr: int) returns (len: nat, cur: Option)
      requires LaidOut() && RatesOk(site, chans) && |CopyPlan(site, chans)| <= pv.Length
      requires statusPtr == StatusStart(site, chans)
      modifies pv
      ensures len <= pv.Length && pv[..len] == Copied(site, chans, |chans|)
      ensures cur == if chans == [] then None else Some(chans[|chans| - 1].dcu)
    {
      cur := None;
      var n := |chans|;
      len := 0;
      for i := 0 to n
        invariant len <= pv.Length && pv[..len] == Copied(site, chans, i)
        invariant cur == if i == 0 then None else Some(chans[i - 1].dcu)
      {
        TurnFits(site, chans, i, pv.Length);
        len := CopyTurn(pv, len, cur, i, statusPtr);
        cur := Some(chans[i].dcu);
      }
    }

    /** initialize_vmpic: the size of the move buffer and the copy plan. */
    method InitializeVmpic(pv: array<Vec>) returns (moveSize: int, len: nat)
      requires LaidOut() && RatesOk(site, chans) && |CopyPlan(site, chans)| <= pv.Length
      modifies pv
      ensures moveSize == MoveBuffer(site, chans)
      ensures len == |CopyPlan(site, chans)| && pv[..len] == CopyPlan(site, chans)
    {
      moveSize := blockSize / PARTS;
      if moveSize < 128 * 1024 {
        moveSize := 128 * 1024;
      }
      var statusPtr := blockSize - STATUS_BYTES * |chans|;
      var cur: Option;
      len, cur := CopyTurns(pv, statusPtr);
      LastClosing(site, chans);
      len := LastTurn(pv, len, cur);
    }
  }
}
