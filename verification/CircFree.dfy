/** The free-block count of `bfree` against the positions of the consumers. */
module CircFree {
  import opened Ring
  import opened CircState
  import opened CircProtocol
  import opened CircInvariant
  import opened CircTheorems

  /** No transient consumer, and nobody between clearing a bit and moving on. */
  ghost predicate Settled(s: Sys)
    requires WellSized(s)
  {
    Unlocked(s) && s.b.tcmask == s.b.cmask && forall c: nat :: c < MAX_CONSUMERS ==> !s.readers[c].pc.Cleared?
  }

  /** Blocks not outstanding for c. */
  function Room(s: Sys, c: nat): int
    requires WellSized(s) && c < MAX_CONSUMERS
  {
    Blocks(s) - (|s.log| - s.readers[c].pos)
  }

  /** Equal indices mean either nothing outstanding or everything; only the first can be misread, and
      then another consumer has everything outstanding. */
  lemma FreeForIsRoom(s: Sys, c: nat)
    requires Inv(s) && Settled(s) && c < MAX_CONSUMERS && c in s.b.cmask
    ensures 0 <= Room(s, c) <= Blocks(s)
    ensures s.b.slots[s.b.nextIn].busy == {} ==> FreeFor(s.b, c) == Room(s, c) > 0
    ensures s.b.slots[s.b.nextIn].busy != {} ==> FreeFor(s.b, c) == if Room(s, c) == Blocks(s) then 0 else Room(s, c)
  {
    assert ConsumerOk(s, c);
    var r := s.readers[c];
    IdxAdd(r.pos, |s.log| - r.pos, Blocks(s));
    assert c !in s.b.slots[s.b.nextIn].busy ==> !Wanted(s, s.b.nextIn, c);
  }

  /** A taken slot is outstanding for somebody who has the whole ring outstanding. */
  lemma TakenMeansFull(s: Sys) returns (c: nat)
    requires Inv(s) && Settled(s) && s.b.slots[s.b.nextIn].busy != {}
    ensures c < MAX_CONSUMERS && c in s.b.cmask && Room(s, c) == 0
  {
    c :| c in s.b.slots[s.b.nextIn].busy;
    assert ConsumerOk(s, c);
    assert Wanted(s, s.b.nextIn, c);
  }

  /** f is the least room over the registered consumers, the ring size when there are none. */
  ghost predicate LeastRoom(s: Sys, f: int)
    requires WellSized(s)
  {
    && (forall c: nat :: c < MAX_CONSUMERS && c in s.b.cmask ==> f <= Room(s, c))
    && (if s.b.cmask == {} then f == Blocks(s)
        else exists c: nat :: c < MAX_CONSUMERS && c in s.b.cmask && f == Room(s, c))
  }

  /** `bfree` is exactly the least room, and the next put_nowait drops if and only if it is zero. */
  lemma FreeSpaceExact(s: Sys, free: int)
    requires Reachable(s) && Settled(s) && free == LeastFree(s.b, MAX_CONSUMERS)
    ensures LeastRoom(s, free)
    ensures s.prod.Ready? && !s.byParts ==> (Enabled(s, SeeTaken) <==> free == 0)
  {
    ReachableInv(s);
    LeastIsReached(s, free, MAX_CONSUMERS);
    TakenDrops(s, free);
  }

  lemma TakenDrops(s: Sys, free: int)
    requires WellSized(s) && (free == 0 <==> s.b.slots[s.b.nextIn].busy != {})
    ensures s.prod.Ready? && !s.byParts ==> (Enabled(s, SeeTaken) <==> free == 0)
  {
  }

  lemma LeastIsReached(s: Sys, f: int, n: nat)
    requires Inv(s) && Settled(s) && n == MAX_CONSUMERS && f == LeastFree(s.b, n)
    ensures LeastRoom(s, f)
    ensures f == 0 <==> s.b.slots[s.b.nextIn].busy != {}
  {
    forall c: nat | c < MAX_CONSUMERS && c in s.b.cmask
      ensures 0 <= Room(s, c) <= Blocks(s) && FreeFor(s.b, c) >= 0 && FreeFor(s.b, c) <= Room(s, c)
    {
      FreeForIsRoom(s, c);
    }
    if s.b.slots[s.b.nextIn].busy != {} {
      var d := TakenMeansFull(s);
      FreeForIsRoom(s, d);
      assert f == Room(s, d);
    } else if s.b.cmask != {} {
      var c: nat :| c in s.b.cmask;
      FreeForIsRoom(s, c);
      if f == Blocks(s) {
        assert f == Room(s, c);
      } else {
        var e: nat :| e < MAX_CONSUMERS && e in s.b.cmask && f == FreeFor(s.b, e);
        FreeForIsRoom(s, e);
      }
    }
  }
}
