/** Allocating clusters first-fit, releasing chains, and counting what is free. */
module FatAlloc {
  import opened FatLayout
  import opened FatView
  import opened FatInv
  import opened FatVolume

  // ----- counting -----

  /** How many of the clusters numbered 2..n-1 are free. */
  function FreeCount(fat: seq<nat>, n: nat): nat
    requires n <= |fat|
  {
    if n <= 2 then 0 else FreeCount(fat, n - 1) + if fat[n - 1] == 0 then 1 else 0
  }

  function FreeClusters(g: Geo, fat: seq<nat>): nat
    requires g.Ok() && |fat| == g.Entries()
  {
    FreeCount(fat, g.clusters + 2)
  }

  lemma {:induction false} FreeCountBound(fat: seq<nat>, n: nat)
    requires 2 <= n <= |fat|
    ensures FreeCount(fat, n) <= n - 2
    ensures FreeCount(fat, n) == 0 <==> forall c :: 2 <= c < n ==> fat[c] != 0
  {
    if n > 2 {
      FreeCountBound(fat, n - 1);
    }
  }

  lemma {:induction false} FreeCountSet(fat: seq<nat>, n: nat, c: nat, e: nat)
    requires n <= |fat| && 2 <= c < |fat|
    ensures FreeCount(fat[c := e], n) + (if c < n && fat[c] == 0 then 1 else 0)
         == FreeCount(fat, n) + if c < n && e == 0 then 1 else 0
  {
    if n > 2 {
      FreeCountSet(fat, n - 1, c, e);
    }
  }

  /** How many entries of the table are not zero: the measure that makes freeing terminate. */
  function NonZero(fat: seq<nat>): nat {
    if fat == [] then 0 else NonZero(fat[..|fat| - 1]) + if fat[|fat| - 1] != 0 then 1 else 0
  }

  lemma {:induction false} NonZeroClear(fat: seq<nat>, c: nat)
    requires c < |fat|
    ensures NonZero(fat[c := 0]) + (if fat[c] != 0 then 1 else 0) == NonZero(fat)
  {
    var n := |fat| - 1;
    if c < n {
      NonZeroClear(fat[..n], c);
      assert fat[c := 0][..n] == fat[..n][c := 0];
    } else {
      assert fat[c := 0][..n] == fat[..n];
    }
  }

  // ----- releasing a chain -----

  /** The table after the chain from `c` is released, on any table, cyclic or not. */
  function FreeFrom(g: Geo, fat: seq<nat>, c: nat): (r: seq<nat>)
    ensures |r| == |fat|
    decreases NonZero(fat), c
  {
    if c < 2 || g.IsEoc(c) || c >= |fat| then fat
    else
      NonZeroClear(fat, c);
      FreeFrom(g, fat[c := 0], fat[c])
  }

  lemma RestIsChain(g: Geo, fat: seq<nat>, ch: seq<Cluster>)
    requires IsChain(g, fat, ch) && |ch| > 1
    ensures IsChain(g, fat[ch[0] := 0], ch[1..]) && fat[ch[0]] == ch[1]
  {
    var next, rest := fat[ch[0] := 0], ch[1..];
    forall i | 0 <= i < |rest| ensures next[rest[i]] == fat[ch[i + 1]] && rest[i] == ch[i + 1] {
      assert ch[0] != ch[i + 1];
    }
  }

  /** Releasing a well-formed chain frees exactly its clusters. */
  lemma {:induction false} FreeFromChain(g: Geo, fat: seq<nat>, ch: seq<Cluster>)
    requires g.Ok() && |fat| == g.Entries() && IsChain(g, fat, ch)
    ensures forall c :: 0 <= c < |fat| ==> FreeFrom(g, fat, ch[0])[c] == if c in ch then 0 else fat[c]
    ensures FreeClusters(g, FreeFrom(g, fat, ch[0])) == FreeClusters(g, fat) + |ch|
    decreases |ch|
  {
    hide FreeFrom, FreeCount;
    var next := fat[ch[0] := 0];
    FreeCountSet(fat, g.clusters + 2, ch[0], 0);
    FreeFromOne(g, fat, ch[0]);
    HeadAndRest(ch);
    if |ch| > 1 {
      RestIsChain(g, fat, ch);
      FreeFromChain(g, next, ch[1..]);
    } else {
      FreeFromNone(g, next, fat[ch[0]]);
    }
  }

  lemma HeadAndRest(ch: seq<Cluster>)
    requires ch != []
    ensures forall c :: c in ch <==> c == ch[0] || c in ch[1..]
  {
    assert ch == [ch[0]] + ch[1..];
  }

  lemma FreeFromOne(g: Geo, fat: seq<nat>, c: nat)
    requires c >= 2 && !g.IsEoc(c) && c < |fat|
    ensures FreeFrom(g, fat, c) == FreeFrom(g, fat[c := 0], fat[c])
  {
  }

  lemma FreeFromNone(g: Geo, fat: seq<nat>, c: nat)
    requires g.IsEoc(c)
    ensures FreeFrom(g, fat, c) == fat
  {
  }

  /** Any release only ever clears entries. */
  lemma {:induction false} FreeFromClears(g: Geo, fat: seq<nat>, c: nat)
    ensures forall i :: 0 <= i < |fat| ==> FreeFrom(g, fat, c)[i] == fat[i] || FreeFrom(g, fat, c)[i] == 0
    decreases NonZero(fat), c
  {
    if !(c < 2 || g.IsEoc(c) || c >= |fat|) {
      NonZeroClear(fat, c);
      FreeFromClears(g, fat[c := 0], fat[c]);
    }
  }

  /**
   Releases the chain from `start`. It terminates on every table whose links are in range, even a
   cyclic one, and at every moment only entries that end up released have changed.
   */
  method FreeClusterChain(fs: Volume, start: nat)
    requires fs.Valid() && FatOk(fs.g, fs.vol.fat)
    requires start < 2 || fs.g.IsEoc(start) || fs.g.InData(start)
    modifies fs.Arrays(), fs`vol, fs`hist, fs`cacheNext
    ensures fs.Valid()
    ensures fs.vol == old(fs.vol).(fat := FreeFrom(fs.g, old(fs.vol.fat), start))
    ensures old(fs.hist) <= fs.hist
    ensures forall k :: |old(fs.hist)| <= k < |fs.hist| ==> Releasing(fs.hist[k], old(fs.vol), fs.vol)
  {
    hide Volume.Valid, FatOk, FreeFrom, Freeing, Releasing, Left;
    ghost var v0, h0 := fs.vol, fs.hist;
    FreeingBegins(fs.g, v0, start, h0);
    var cur := start;
    while cur >= 2 && !fs.g.IsEoc(cur)
      invariant fs.Valid() && Freeing(fs.g, v0, fs.vol, start, cur, h0, fs.hist)
      decreases Left(fs.vol.fat, cur)
    {
      FreeingStep(fs.g, v0, fs.vol, start, cur, h0, fs.hist);
      cur := ClearLink(fs, cur);
    }
    FreeingEnds(fs.g, v0, fs.vol, start, cur, h0, fs.hist);
  }

  /** Clears an entry and yields what it led to. */
  method ClearLink(fs: Volume, c: nat) returns (next: nat)
    requires fs.Valid() && c < fs.g.Entries()
    modifies fs.Arrays(), fs`vol, fs`hist, fs`cacheNext
    ensures fs.Valid() && c < |old(fs.vol).fat| && next == old(fs.vol).fat[c]
    ensures fs.vol == old(fs.vol).(fat := old(fs.vol).fat[c := 0]) && fs.hist == old(fs.hist) + [fs.vol, fs.vol]
  {
    hide Volume.Valid;
    next := fs.FatEntry(c);
    fs.WriteFatEntry(c, 0);
  }

  /** The entries that are not free yet, and the round in progress. */
  function Left(fat: seq<nat>, cur: nat): nat { 2 * NonZero(fat) + if cur >= 2 then 1 else 0 }

  /** The loop of a release stands before `cur`; what is left to free from there completes it. */
  ghost predicate Freeing(g: Geo, v0: Vol, v: Vol, start: nat, cur: nat, h0: seq<Vol>, h: seq<Vol>) {
    && FatOk(g, v.fat) && (cur < 2 || g.IsEoc(cur) || g.InData(cur))
    && FreeFrom(g, v.fat, cur) == FreeFrom(g, v0.fat, start)
    && Releasing(v, v0, v) && h0 <= h
    && forall k :: |h0| <= k < |h| ==> Releasing(h[k], v0, v)
  }

  lemma FreeingBegins(g: Geo, v: Vol, start: nat, h: seq<Vol>)
    requires FatOk(g, v.fat) && (start < 2 || g.IsEoc(start) || g.InData(start))
    ensures Freeing(g, v, v, start, start, h, h)
  {
    hide FatOk;
  }

  lemma FreeingStep(g: Geo, v0: Vol, v: Vol, start: nat, cur: nat, h0: seq<Vol>, h: seq<Vol>)
    requires g.Ok() && Freeing(g, v0, v, start, cur, h0, h) && cur >= 2 && !g.IsEoc(cur)
    ensures cur < |v.fat| && |v.fat| == g.Entries()
    ensures var v1 := v.(fat := v.fat[cur := 0]);
      && Freeing(g, v0, v1, start, v.fat[cur], h0, h + [v1, v1])
      && Left(v1.fat, v.fat[cur]) < Left(v.fat, cur)
  {
    NonZeroClear(v.fat, cur);
  }

  lemma FreeingEnds(g: Geo, v0: Vol, v: Vol, start: nat, cur: nat, h0: seq<Vol>, h: seq<Vol>)
    requires Freeing(g, v0, v, start, cur, h0, h) && (cur < 2 || g.IsEoc(cur))
    ensures v == v0.(fat := FreeFrom(g, v0.fat, start)) && h0 <= h
    ensures forall k :: |h0| <= k < |h| ==> Releasing(h[k], v0, v)
  {
    hide FatOk;
  }

  /** `v` lies between `before` and `after`: entries differ from `before` only where `after` is free. */
  ghost predicate Releasing(v: Vol, before: Vol, after: Vol) {
    && v.area == before.area && |v.fat| == |before.fat| == |after.fat|
    && forall c :: 0 <= c < |v.fat| && v.fat[c] != before.fat[c] ==> v.fat[c] == 0 && after.fat[c] == 0
  }

  lemma ReleasingFatOk(g: Geo, v: Vol, before: Vol, after: Vol)
    requires FatOk(g, before.fat) && FatOk(g, after.fat) && Releasing(v, before, after)
    ensures FatOk(g, v.fat)
  {
  }

  // ----- allocating -----

  /** The buffer holds first-FAT sector `k`. */
  ghost predicate SectorLoaded(fs: Volume, k: nat)
    reads fs, fs.buf
    requires fs.buf.Length == 512
  {
    forall i :: 0 <= i < fs.g.PerSec() ==>
      k * fs.g.PerSec() + i < |fs.vol.fat| && EntryIn(fs.g, fs.buf[..], i) == fs.vol.fat[k * fs.g.PerSec() + i]
  }

  ghost predicate NoneBelow(fat: seq<nat>, n: nat) {
    forall k :: 2 <= k < n && k < |fat| ==> fat[k] != 0
  }

  lemma NothingBelow(fat: seq<nat>)
    ensures NoneBelow(fat, 0)
  {
  }

  lemma NextBelow(fat: seq<nat>, n: nat)
    requires NoneBelow(fat, n) && n < |fat| && (n >= 2 ==> fat[n] != 0)
    ensures NoneBelow(fat, n + 1)
  {
  }

  lemma FirstFree(g: Geo, fat: seq<nat>, c: nat)
    requires g.Ok() && FatOk(g, fat) && NoneBelow(fat, c) && 2 <= c < |fat| && fat[c] == 0
    ensures g.InData(c) && Stored(g, g.Eoc()) == g.Eoc() && forall k :: 2 <= k < c ==> fat[k] != 0
    ensures FreeClusters(g, fat) != 0 && FreeClusters(g, fat[c := g.Eoc()]) == FreeClusters(g, fat) - 1
  {
    FreeCountBound(fat, g.clusters + 2);
    FreeCountSet(fat, g.clusters + 2, c, g.Eoc());
  }

  lemma NoneFree(g: Geo, fat: seq<nat>, n: nat)
    requires g.Ok() && FatOk(g, fat) && NoneBelow(fat, n) && n >= |fat|
    ensures FreeClusters(g, fat) == 0
  {
    FreeCountBound(fat, g.clusters + 2);
  }

  /** The first free cluster, marked as the end of a chain of its own; 0 when the volume is full. */
  method AllocCluster(fs: Volume) returns (c: nat)
    requires fs.Valid() && FatOk(fs.g, fs.vol.fat)
    modifies fs.Arrays(), fs`vol, fs`hist, fs`cacheNext
    ensures fs.Valid()
    ensures c == 0 <==> FreeClusters(fs.g, old(fs.vol.fat)) == 0
    ensures c == 0 ==> fs.vol == old(fs.vol) && fs.hist == old(fs.hist)
    ensures c != 0 ==>
      && fs.g.InData(c) && old(fs.vol).fat[c] == 0 && (forall k :: 2 <= k < c ==> old(fs.vol).fat[k] != 0)
      && fs.vol == old(fs.vol).(fat := old(fs.vol).fat[c := fs.g.Eoc()])
      && fs.hist == old(fs.hist) + [fs.vol, fs.vol]
      && FreeClusters(fs.g, fs.vol.fat) == FreeClusters(fs.g, old(fs.vol.fat)) - 1
  {
    hide Volume.Valid, FatOk, FreeClusters, NoneBelow;
    var per := fs.g.PerSec();
    var sector := 0;
    NothingBelow(fs.vol.fat);
    while sector < fs.g.fatSize
      invariant fs.Valid() && fs.vol == old(fs.vol) && fs.hist == old(fs.hist)
      invariant 0 <= sector <= fs.g.fatSize
      invariant NoneBelow(fs.vol.fat, sector * per)
    {
      fs.ReadFat(sector);
      for i := 0 to per
        invariant fs.Valid() && fs.vol == old(fs.vol) && fs.hist == old(fs.hist)
        invariant SectorLoaded(fs, sector)
        invariant NoneBelow(fs.vol.fat, sector * per + i)
      {
        var cluster := sector * per + i;
        if cluster >= 2 && EntryIn(fs.g, fs.buf[..], i) == 0 {
          FirstFree(fs.g, fs.vol.fat, cluster);
          fs.WriteFatEntry(cluster, fs.g.Eoc());
          return cluster;
        }
        NextBelow(fs.vol.fat, cluster);
      }
      sector := sector + 1;
    }
    NoneFree(fs.g, fs.vol.fat, sector * per);
    return 0;
  }

  datatype Usage = Usage(clusters: nat, free: nat, used: nat)

  /** Counts free and used clusters by scanning the first FAT. */
  method GetUsage(fs: Volume) returns (u: Usage)
    requires fs.Valid()
    modifies fs.buf
    ensures fs.Valid()
    ensures u.clusters == fs.g.clusters && u.free + u.used == u.clusters
    ensures u.free == FreeClusters(fs.g, fs.vol.fat)
  {
    hide Volume.Valid;
    var free, used := 0, 0;
    var per := fs.g.PerSec();
    var sector := 0;
    while sector < fs.g.fatSize
      invariant fs.Valid() && 0 <= sector <= fs.g.fatSize
      invariant Counted(fs.g, fs.vol.fat, sector * per, free, used)
    {
      fs.ReadFat(sector);
      for i := 0 to per
        invariant fs.Valid() && SectorLoaded(fs, sector)
        invariant Counted(fs.g, fs.vol.fat, sector * per + i, free, used)
      {
        var cluster := sector * per + i;
        if cluster < 2 || cluster >= fs.g.clusters + 2 {
        } else if EntryIn(fs.g, fs.buf[..], i) == 0 {
          free := free + 1;
        } else {
          used := used + 1;
        }
      }
      sector := sector + 1;
    }
    u := Usage(fs.g.clusters, free, used);
  }

  /** The counters after the entries below `n` were seen. */
  ghost predicate Counted(g: Geo, fat: seq<nat>, n: nat, free: nat, used: nat)
    requires g.Ok() && |fat| == g.Entries()
  {
    var m := if n < g.clusters + 2 then n else g.clusters + 2;
    free == FreeCount(fat, m) && free + used == if m < 2 then 0 else m - 2
  }
}
