/** The channel table after the configuration files have been read: sorted by DCU, then numbered by
    position. It is what makes the channels of a DCU stand together. */
module ChannelTable {
  import opened Layout
  import opened LayoutSound
  import opened LayoutExact

  datatype Entry = Entry(chan: Channel, seqNum: int)

  function Channels(t: seq<Entry>): (chans: seq<Channel>)
    ensures |chans| == |t| && forall i :: 0 <= i < |t| ==> chans[i] == t[i].chan
  {
    seq(|t|, i requires 0 <= i < |t| => t[i].chan)
  }

  /** chan_dcu_eq */
  function Compare(a: Entry, b: Entry): int {
    if a.chan.dcu == b.chan.dcu then a.seqNum - b.seqNum else a.chan.dcu - b.chan.dcu
  }

  /** Whatever a sort with this comparator may leave behind. */
  ghost predicate Sorted(before: seq<Entry>, after: seq<Entry>) {
    && multiset(before) == multiset(after)
    && forall i, j :: 0 <= i < j < |after| ==> Compare(after[i], after[j]) <= 0
  }

  /** The number of a channel is its place, as it is when the files have been read and again in the end. */
  ghost predicate Numbered(t: seq<Entry>) {
    forall i :: 0 <= i < |t| ==> t[i].seqNum == i
  }

  // ---- the sort ---------------------------------------------------------------------------------

  lemma SortedMembers(before: seq<Entry>, after: seq<Entry>)
    requires Sorted(before, after)
    ensures |before| == |after| && forall e :: e in before <==> e in after
  {
    assert |multiset(before)| == |before| && |multiset(after)| == |after|;
    forall e ensures e in before <==> e in after {
      assert e in before <==> e in multiset(before);
      assert e in after <==> e in multiset(after);
    }
  }

  lemma SortedGroups(before: seq<Entry>, after: seq<Entry>)
    requires Sorted(before, after)
    ensures Grouped(Channels(after))
  {
    var chans := Channels(after);
    forall i, j, k | 0 <= i < j < k < |chans| && chans[i].dcu == chans[k].dcu ensures chans[j].dcu == chans[i].dcu {
      assert Compare(after[i], after[j]) <= 0 && Compare(after[j], after[k]) <= 0;
    }
  }

  lemma {:induction false} OnlyOnce(t: seq<Entry>, e: Entry)
    requires forall i, j :: 0 <= i < j < |t| ==> t[i] != t[j]
    ensures multiset(t)[e] <= 1
    decreases |t|
  {
    if t != [] {
      var rest := t[..|t| - 1];
      OnlyOnce(rest, e);
      assert t == rest + [t[|t| - 1]];
      assert e == t[|t| - 1] ==> e !in rest;
    }
  }

  lemma Twice(t: seq<Entry>, i: nat, j: nat)
    requires i < j < |t| && t[i] == t[j]
    ensures multiset(t)[t[i]] >= 2
  {
    assert t == t[..j] + [t[j]] + t[j + 1..];
    assert t[i] in t[..j];
  }

  /** No two rows compare equal: the DCUs come in ascending order, and within a DCU the channels keep the order of the
      files. */
  lemma FileOrderKept(before: seq<Entry>, after: seq<Entry>, i: nat, j: nat)
    requires Numbered(before) && Sorted(before, after) && i < j < |after|
    ensures Compare(after[i], after[j]) < 0
    ensures after[i].chan.dcu < after[j].chan.dcu ||
            (after[i].chan.dcu == after[j].chan.dcu && after[i].seqNum < after[j].seqNum)
  {
    SortedMembers(before, after);
    if Compare(after[i], after[j]) == 0 {
      assert after[i] in before && after[j] in before;
      assert after[i] == after[j];
      Twice(after, i, j);
      OnlyOnce(before, after[i]);
    }
  }

  ghost predicate Strict(t: seq<Entry>) {
    forall i, j :: 0 <= i < j < |t| ==> Compare(t[i], t[j]) < 0
  }

  lemma SameFirst(a: seq<Entry>, b: seq<Entry>)
    requires Strict(a) && Strict(b) && a != [] && b != [] && a[0] in b && b[0] in a
    ensures a[0] == b[0]
  {
    var k :| 0 <= k < |b| && b[k] == a[0];
    var m :| 0 <= m < |a| && a[m] == b[0];
    assert k > 0 ==> Compare(b[0], a[0]) < 0;
    assert m > 0 ==> Compare(a[0], b[0]) < 0;
  }

  function Without(t: seq<Entry>, k: nat): seq<Entry>
    requires k < |t|
  {
    t[..k] + t[k + 1..]
  }

  lemma WithoutOne(t: seq<Entry>, k: nat)
    requires k < |t|
    ensures multiset(Without(t, k)) == multiset(t) - multiset{t[k]}
  {
    assert t == t[..k] + [t[k]] + t[k + 1..];
  }

  lemma RestOf(t: seq<Entry>)
    requires Strict(t) && t != []
    ensures Strict(t[1..]) && multiset(t[1..]) == multiset(t) - multiset{t[0]} && t == [t[0]] + t[1..]
  {
    RestMembers(t);
  }

  lemma RestMembers(t: seq<Entry>)
    requires t != []
    ensures multiset(t[1..]) == multiset(t) - multiset{t[0]}
  {
    WithoutOne(t, 0);
    assert t[1..] == Without(t, 0);
  }

  lemma SameMembers(a: seq<Entry>, b: seq<Entry>)
    requires multiset(a) == multiset(b)
    ensures |a| == |b| && (a != [] ==> a[0] in b && b[0] in a)
  {
    assert |multiset(a)| == |a| && |multiset(b)| == |b|;
    if a != [] {
      assert a[0] in multiset(b) && b[0] in multiset(a);
    }
  }

  lemma {:induction false} StrictUnique(a: seq<Entry>, b: seq<Entry>)
    requires Strict(a) && Strict(b) && multiset(a) == multiset(b)
    ensures a == b
    decreases |a|
  {
    SameMembers(a, b);
    if a != [] {
      SameFirst(a, b);
      RestOf(a);
      RestOf(b);
      StrictUnique(a[1..], b[1..]);
    }
  }

  /** The sort of the C library is not stable, but there is one result only. */
  lemma SortUnique(before: seq<Entry>, a: seq<Entry>, b: seq<Entry>)
    requires Numbered(before) && Sorted(before, a) && Sorted(before, b)
    ensures a == b
  {
    forall i, j | 0 <= i < j < |a| ensures Compare(a[i], a[j]) < 0 {
      FileOrderKept(before, a, i, j);
    }
    forall i, j | 0 <= i < j < |b| ensures Compare(b[i], b[j]) < 0 {
      FileOrderKept(before, b, i, j);
    }
    StrictUnique(a, b);
  }

  /** The loop that updates the sequence numbers. */
  method Renumber(channels: array<Entry>)
    modifies channels
    ensures Numbered(channels[..])
    ensures Channels(channels[..]) == old(Channels(channels[..]))
  {
    for i := 0 to channels.Length
      invariant forall k :: 0 <= k < i ==> channels[k] == Entry(old(channels[k]).chan, k)
      invariant forall k :: i <= k < channels.Length ==> channels[k] == old(channels[k])
    {
      channels[i] := channels[i].(seqNum := i);
    }
  }

  // ---- what the layout asks of the files ------------------------------------------------------------

  function Share(site: Site, c: Channel, d: nat): int {
    if c.dcu == d && !c.alias then Sixteenth(c) + Lead(site, c) else 0
  }

  /** What the channels of DCU d need in the move buffer. */
  function Data(site: Site, t: seq<Entry>, d: nat): int {
    if t == [] then 0 else Data(site, t[..|t| - 1], d) + Share(site, t[|t| - 1].chan, d)
  }

  lemma {:induction false} DataIsDcuData(site: Site, t: seq<Entry>, n: nat, d: nat)
    requires n <= |t|
    ensures Data(site, t[..n], d) == DcuData(site, Channels(t), n, d)
  {
    if n > 0 {
      DataIsDcuData(site, t, n - 1, d);
      assert t[..n][..n - 1] == t[..n - 1];
    }
  }

  lemma {:induction false} DataWithout(site: Site, t: seq<Entry>, k: nat, d: nat)
    requires k < |t|
    ensures Data(site, t, d) == Data(site, Without(t, k), d) + Share(site, t[k].chan, d)
    decreases |t|
  {
    var n := |t| - 1;
    if k == n {
      assert Without(t, k) == t[..n];
    } else {
      DataWithout(site, t[..n], k, d);
      var rest := Without(t, k);
      assert rest[..|rest| - 1] == Without(t[..n], k);
    }
  }

  /** Sorting changes no sum. */
  lemma {:induction false} DataKept(site: Site, a: seq<Entry>, b: seq<Entry>, d: nat)
    requires multiset(a) == multiset(b)
    ensures Data(site, a, d) == Data(site, b, d)
    decreases |a|
  {
    assert |multiset(a)| == |a| && |multiset(b)| == |b|;
    if a != [] {
      var n := |a| - 1;
      assert a[n] in multiset(b);
      var k :| 0 <= k < |b| && b[k] == a[n];
      WithoutOne(a, n);
      WithoutOne(b, k);
      assert a[..n] == Without(a, n);
      DataKept(site, a[..n], Without(b, k), d);
      DataWithout(site, b, k, d);
    }
  }

  /** From the files to the block: the layout of the sorted channels is sound if and only if no Myrinet
      DCU has, in whatever order its channels come, more data than its room. */
  lemma ConfiguredSoundExactly(site: Site, before: seq<Entry>, after: seq<Entry>)
    requires Sorted(before, after)
    requires RatesOk(site, Channels(before)) && Admitted(site, Channels(before))
    ensures RatesOk(site, Channels(after))
    ensures Sound(site, Channels(after)) <==>
            forall e :: e in before && e.chan.dcu in site.myrinet ==>
              Data(site, before, e.chan.dcu) <= 2 * site.dcuBlock
  {
    var chans := Channels(after);
    SortedMembers(before, after);
    forall c | c in chans ensures c in Channels(before) {
      var i :| 0 <= i < |after| && chans[i] == c;
      assert after[i] in before;
      var j :| 0 <= j < |before| && before[j] == after[i];
      assert Channels(before)[j] == c;
    }
    SortedGroups(before, after);
    SoundExactly(site, chans);
    FitsIs(site, before, after);
  }

  lemma FitsIs(site: Site, before: seq<Entry>, after: seq<Entry>)
    requires Sorted(before, after)
    ensures Fits(site, Channels(after)) <==>
            forall e :: e in before && e.chan.dcu in site.myrinet ==> Data(site, before, e.chan.dcu) <= Room(site)
  {
    var chans := Channels(after);
    SortedMembers(before, after);
    forall d: nat ensures DcuData(site, chans, |chans|, d) == Data(site, before, d) {
      DataIsDcuData(site, after, |after|, d);
      assert after[..|after|] == after;
      DataKept(site, before, after, d);
    }
    forall e | e in before ensures e.chan in chans {
      var i :| 0 <= i < |after| && after[i] == e;
      assert chans[i] == e.chan;
    }
    forall c | c in chans ensures exists e :: e in before && e.chan == c {
      var i :| 0 <= i < |after| && chans[i] == c;
      assert after[i] in before;
    }
  }
}
