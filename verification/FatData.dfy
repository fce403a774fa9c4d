/** Writing the bytes of a new file into a chain of fresh clusters. */
module FatData {
  import opened Basics
  import opened FatLayout
  import opened FatView
  import opened FatInv
  import opened FatSteps
  import opened FatVolume
  import opened FatAlloc
  import opened FatGrow

  /** The sector that holds the bytes of `data` from `at` on, padded with zeros. */
  function Chunk(data: seq<byte>, at: nat): Sector
    requires at <= |data|
  {
    if |data| - at >= 512 then data[at..at + 512] else data[at..] + seq(512 - (|data| - at), _ => 0)
  }

  /** The first `m` sectors of the list hold the first 512 * m bytes of `data`. */
  ghost predicate Holds(area: seq<Sector>, secs: seq<nat>, data: seq<byte>, m: nat) {
    && m <= |secs| && 512 * m <= |data| + 511
    && forall j :: 0 <= j < m ==> secs[j] < |area| && area[secs[j]] == Chunk(data, 512 * j)
  }

  lemma HoldsAll(area: seq<Sector>, secs: seq<nat>, data: seq<byte>, m: nat)
    requires InArea(area, secs) && Holds(area, secs, data, m) && |data| <= 512 * m
    ensures |data| <= |Raw(area, secs)| && Raw(area, secs)[..|data|] == data
  {
    forall p | 0 <= p < |data| ensures Raw(area, secs)[p] == data[p] {
      assert area[secs[p / 512]] == Chunk(data, 512 * (p / 512));
    }
  }

  lemma ChainSecsDistinct(g: Geo, ch: seq<Cluster>, i: nat, j: nat)
    requires NoDup(ch) && i < |ChainSecs(g, ch)| && j < |ChainSecs(g, ch)|
    requires ChainSecs(g, ch)[i] == ChainSecs(g, ch)[j]
    ensures i == j
  {
    var p, q, s := SharedSector(g, ch, i, ch, j);
    assert p == q;
  }

  // ----- the chain under construction -----

  /** `fat` came from `fat0` by taking the clusters of `ch`, which were free, and chaining them. */
  ghost predicate Chained(g: Geo, fat0: seq<nat>, fat: seq<nat>, ch: seq<Cluster>) {
    && g.Ok() && |fat0| == g.Entries() && FatOk(g, fat) && IsChain(g, fat, ch)
    && (forall c :: 0 <= c < |fat| && c in ch ==> fat0[c] == 0)
    && (forall c :: 0 <= c < |fat| && c !in ch ==> fat[c] == fat0[c])
    && FreeClusters(g, fat) + |ch| == FreeClusters(g, fat0)
  }

  /**
   `v` came from `v0` by building the chain `ch` out of free clusters: nothing that was in use on
   `v0` is touched, and the chain's first `m` sectors hold data.
   */
  ghost predicate Building(g: Geo, v0: Vol, b: Book, v: Vol, ch: seq<Cluster>, data: seq<byte>, m: nat) {
    && Untouched(g, b.chains, v0, v)
    && Chained(g, v0.fat, v.fat, ch)
    && Holds(v.area, ChainSecs(g, ch), data, m)
  }

  ghost predicate UntouchedSince(g: Geo, chains: map<nat, seq<Cluster>>, v: Vol, hist: seq<Vol>, from: nat) {
    forall k :: from <= k < |hist| ==> Untouched(g, chains, v, hist[k])
  }

  lemma BuildBegin(g: Geo, v0: Vol, b: Book, c: nat, data: seq<byte>)
    requires Inv(g, v0, b) && g.InData(c) && v0.fat[c] == 0
    ensures var v := v0.(fat := v0.fat[c := g.Eoc()]);
            FreeClusters(g, v.fat) == FreeClusters(g, v0.fat) - 1 && Building(g, v0, b, v, [c], data, 0)
  {
    var v := v0.(fat := v0.fat[c := g.Eoc()]);
    TakeCluster(g, v0, b, c);
    FreeCountSet(v0.fat, g.clusters + 2, c, g.Eoc());
    SetUntouched(g, v0, v0, b, c, g.Eoc());
  }

  lemma SetUntouched(g: Geo, v0: Vol, v: Vol, b: Book, c: nat, e: nat)
    requires Untouched(g, b.chains, v0, v) && Unowned(b, c) && g.Ok() && g.InData(c)
    requires e == 0 || g.IsEoc(e) || g.InData(e)
    ensures Untouched(g, b.chains, v0, v.(fat := v.fat[c := e]))
  {
    LinkFatOk(g, v.fat, c, e);
    forall h, i | h in b.chains && 0 <= i < |b.chains[h]| && b.chains[h][i] < |v0.fat|
      ensures v.fat[c := e][b.chains[h][i]] == v0.fat[b.chains[h][i]]
    {
      assert b.chains[h][i] in b.chains[h];
    }
  }

  lemma UntouchedTrans(g: Geo, chains: map<nat, seq<Cluster>>, v: Vol, v': Vol, v'': Vol)
    requires Untouched(g, chains, v, v') && Untouched(g, chains, v', v'')
    ensures Untouched(g, chains, v, v'')
  {
  }

  lemma InChain(g: Geo, fat: seq<nat>, ch: seq<Cluster>, c: nat)
    requires g.Ok() && |fat| == g.Entries() && IsChain(g, fat, ch) && c in ch
    ensures c < |fat| && fat[c] != 0 && g.InData(c)
  {
    var i :| 0 <= i < |ch| && ch[i] == c;
    if i < |ch| - 1 { assert fat[ch[i]] == ch[i + 1]; }
  }

  /** The clusters of a chain built from free clusters are in no chain of the book. */
  lemma ChainedUnowned(g: Geo, v0: Vol, b: Book, fat: seq<nat>, ch: seq<Cluster>, c: nat)
    requires Inv(g, v0, b) && Chained(g, v0.fat, fat, ch) && c in ch
    ensures Unowned(b, c) && c < |fat| && g.InData(c)
  {
    InChain(g, fat, ch, c);
    FreeIsUnowned(g, v0, b, c);
  }

  lemma HoldsWrite(g: Geo, area: seq<Sector>, ch: seq<Cluster>, data: seq<byte>, m: nat, s: nat)
    requires NoDup(ch) && ch != [] && Holds(area, ChainSecs(g, ch), data, m) && 512 * m < |data|
    requires s < g.spc && m == Times(|ch| - 1, g.spc) + s && g.SecOf(Tail(ch), s) < |area|
    ensures Holds(area[g.SecOf(Tail(ch), s) := Chunk(data, 512 * m)], ChainSecs(g, ch), data, m + 1)
  {
    hide ChainSecs, Holds, NoDup, Times;
    var secs := ChainSecs(g, ch);
    ChainSecsAt(g, ch, |ch| - 1, s);
    forall j | 0 <= j < m ensures secs[j] != secs[m] {
      if secs[j] == secs[m] { ChainSecsDistinct(g, ch, j, m); }
    }
    HoldsSet(area, secs, data, m);
  }

  lemma HoldsSet(area: seq<Sector>, secs: seq<nat>, data: seq<byte>, m: nat)
    requires m < |secs| && secs[m] < |area| && Holds(area, secs, data, m) && 512 * m < |data|
    requires forall j :: 0 <= j < m ==> secs[j] != secs[m]
    ensures Holds(area[secs[m] := Chunk(data, 512 * m)], secs, data, m + 1)
  {
    hide Chunk;
  }

  /** The next sector of the chain's last cluster takes the next 512 bytes. */
  lemma BuildWrite(g: Geo, v0: Vol, b: Book, v: Vol, ch: seq<Cluster>, data: seq<byte>, m: nat, s: nat)
    requires Inv(g, v0, b) && Building(g, v0, b, v, ch, data, m) && 512 * m < |data|
    requires s < g.spc && m == Times(|ch| - 1, g.spc) + s
    ensures g.InData(Tail(ch)) && g.SecOf(Tail(ch), s) < |v.area|
    ensures Building(g, v0, b, v.(area := v.area[g.SecOf(Tail(ch), s) := Chunk(data, 512 * m)]), ch, data, m + 1)
  {
    var c := Tail(ch);
    ChainedUnowned(g, v0, b, v.fat, ch, c);
    ClusterWriteUntouched(g, v, b.chains, c, s, Chunk(data, 512 * m));
    var v' := v.(area := v.area[g.SecOf(c, s) := Chunk(data, 512 * m)]);
    UntouchedTrans(g, b.chains, v0, v, v');
    HoldsWrite(g, v.area, ch, data, m, s);
  }

  lemma ExtendChain(g: Geo, fat: seq<nat>, ch: seq<Cluster>, c: Cluster)
    requires IsChain(g, fat, ch) && c < |fat| && c !in ch && g.InData(c) && g.IsEoc(g.Eoc())
    ensures IsChain(g, fat[c := g.Eoc()][Tail(ch) := c], ch + [c])
  {
    assert forall i :: 0 <= i < |ch| ==> ch[i] in ch;
  }

  lemma LinkChained(g: Geo, fat0: seq<nat>, fat: seq<nat>, ch: seq<Cluster>, c: Cluster)
    requires Chained(g, fat0, fat, ch) && g.InData(c) && fat[c] == 0
    ensures Tail(ch) < |fat| && c !in ch
    ensures Chained(g, fat0, fat[c := g.Eoc()][Tail(ch) := c], ch + [c])
  {
    assert ch[|ch| - 1] in ch;
    InChain(g, fat, ch, Tail(ch));
    assert c !in ch by { forall d | d in ch ensures d != c { InChain(g, fat, ch, d); } }
    var fat1 := fat[c := g.Eoc()];
    FreeCountSet(fat, g.clusters + 2, c, g.Eoc());
    FreeCountSet(fat1, g.clusters + 2, Tail(ch), c);
    ExtendChain(g, fat, ch, c);
    LinkFatOk(g, fat1, Tail(ch), c);
  }

  /** A further free cluster is taken and linked behind the chain. */
  lemma BuildLink(g: Geo, v0: Vol, b: Book, v: Vol, ch: seq<Cluster>, data: seq<byte>, m: nat, c: Cluster)
    requires Inv(g, v0, b) && Building(g, v0, b, v, ch, data, m) && g.InData(c) && v.fat[c] == 0
    ensures Tail(ch) < |v.fat|
    ensures var v1 := v.(fat := v.fat[c := g.Eoc()]);
            var v2 := v1.(fat := v1.fat[Tail(ch) := c]);
            Untouched(g, b.chains, v0, v1) && Building(g, v0, b, v2, ch + [c], data, m)
  {
    LinkChained(g, v0.fat, v.fat, ch, c);
    FreeIsUnowned(g, v0, b, c);
    ChainedUnowned(g, v0, b, v.fat, ch, Tail(ch));
    SetUntouched(g, v0, v, b, c, g.Eoc());
    SetUntouched(g, v0, v.(fat := v.fat[c := g.Eoc()]), b, Tail(ch), c);
    ChainSecsPrefix(g, ch, ch + [c]);
  }

  lemma UntouchedOne(g: Geo, chains: map<nat, seq<Cluster>>, v: Vol, h: seq<Vol>, x: Vol, from: nat)
    requires UntouchedSince(g, chains, v, h, from) && from <= |h| && Untouched(g, chains, v, x)
    ensures UntouchedSince(g, chains, v, h + [x], from)
    ensures UntouchedSince(g, chains, v, h + [x, x], from)
  {
  }

  /** Clears the buffer, copies up to 512 bytes of `data` into it and writes it to `lba`. */
  method WriteChunk(fs: Volume, lba: nat, data: seq<byte>, at: nat) returns (take: nat)
    requires fs.Valid() && at < |data| && fs.g.AreaLba() <= lba < fs.g.AreaLba() + fs.g.AreaSize()
    modifies fs.Arrays(), fs`vol, fs`hist
    ensures fs.Valid() && take == if |data| - at < 512 then |data| - at else 512
    ensures fs.vol == old(fs.vol).(area := old(fs.vol).area[lba - fs.g.AreaLba() := Chunk(data, at)])
    ensures fs.hist == old(fs.hist) + [fs.vol]
  {
    hide Volume.Valid, View;
    fs.ClearBuffer();
    take := |data| - at;
    if take > 512 {
      take := 512;
    }
    fs.CopyIn(0, data[at..at + take]);
    assert fs.buf[..] == Chunk(data, at);
    fs.WriteSector(lba);
  }

  /** Fills the chain's last cluster, from its first sector on, until it is full or the data ends. */
  method FillCluster(fs: Volume, cur: Cluster, data: seq<byte>, start: nat,
                     ghost v0: Vol, ghost b: Book, ghost ch: seq<Cluster>, ghost from: nat)
    returns (written: nat, ghost m: nat)
    requires fs.Valid() && Inv(fs.g, v0, b) && ch != [] && cur == Tail(ch)
    requires start == 512 * Times(|ch| - 1, fs.g.spc) < |data|
    requires Building(fs.g, v0, b, fs.vol, ch, data, Times(|ch| - 1, fs.g.spc))
    requires from <= |fs.hist| && UntouchedSince(fs.g, b.chains, v0, fs.hist, from)
    modifies fs.Arrays(), fs`vol, fs`hist
    ensures fs.Valid() && Building(fs.g, v0, b, fs.vol, ch, data, m) && m <= Times(|ch|, fs.g.spc)
    ensures written <= |data| && (if written < |data| then written == 512 * m && m == Times(|ch|, fs.g.spc)
                                  else |data| <= 512 * m)
    ensures old(fs.hist) <= fs.hist && UntouchedSince(fs.g, b.chains, v0, fs.hist, from)
    ensures fs.vol.fat == old(fs.vol).fat
  {
    hide Volume.Valid, View, Inv, Building, Untouched, UntouchedSince;
    written, m := start, Times(|ch| - 1, fs.g.spc);
    var s := 0;
    while s < fs.g.spc && written < |data|
      invariant fs.Valid() && 0 <= s <= fs.g.spc && m == Times(|ch| - 1, fs.g.spc) + s
      invariant written <= |data| && (if written < |data| then written == 512 * m else |data| <= 512 * m)
      invariant Building(fs.g, v0, b, fs.vol, ch, data, m)
      invariant old(fs.hist) <= fs.hist && UntouchedSince(fs.g, b.chains, v0, fs.hist, from)
      invariant fs.vol.fat == old(fs.vol).fat
      decreases fs.g.spc - s
    {
      BuildWrite(fs.g, v0, b, fs.vol, ch, data, m, s);
      SecOfInRange(fs.g, cur, s);
      ghost var h := fs.hist;
      var take := WriteChunk(fs, fs.g.AreaLba() + fs.g.SecOf(cur, 0) + s, data, written);
      BuildingUntouched(fs.g, v0, b, fs.vol, ch, data, m + 1);
      UntouchedOne(fs.g, b.chains, v0, h, fs.vol, from);
      written := written + take;
      s := s + 1;
      m := m + 1;
    }
  }

  lemma BuildingUntouched(g: Geo, v0: Vol, b: Book, v: Vol, ch: seq<Cluster>, data: seq<byte>, m: nat)
    requires Building(g, v0, b, v, ch, data, m)
    ensures Untouched(g, b.chains, v0, v) && FatOk(g, v.fat) && g.Ok()
    ensures FreeClusters(g, v.fat) + |ch| == FreeClusters(g, v0.fat)
    ensures ch != [] && g.InData(ch[0]) && g.InData(Tail(ch)) && m <= Times(|ch|, g.spc)
  {
    ChainSecsLen(g, ch);
  }

  /** Releasing a chain under construction gives back the table it was started from. */
  lemma BuildUndone(g: Geo, v0: Vol, b: Book, v: Vol, ch: seq<Cluster>, data: seq<byte>, m: nat)
    requires Building(g, v0, b, v, ch, data, m) && FatOk(g, v0.fat)
    ensures FreeFrom(g, v.fat, ch[0]) == v0.fat
    ensures Untouched(g, b.chains, v0, v.(fat := v0.fat))
  {
    FreeFromChain(g, v.fat, ch);
  }

  lemma ReleasingUntouched(g: Geo, v0: Vol, b: Book, v: Vol, ch: seq<Cluster>, data: seq<byte>, m: nat, h: Vol)
    requires Inv(g, v0, b) && Building(g, v0, b, v, ch, data, m)
    requires Releasing(h, v, v.(fat := v0.fat))
    ensures Untouched(g, b.chains, v0, h)
  {
    ReleasingFatOk(g, h, v, v.(fat := v0.fat));
    forall y, i | y in b.chains && 0 <= i < |b.chains[y]| && b.chains[y][i] < |v0.fat|
      ensures h.fat[b.chains[y][i]] == v0.fat[b.chains[y][i]]
    {
      assert b.chains[y][i] in b.chains[y];
      InChain(g, v0.fat, b.chains[y], b.chains[y][i]);
    }
  }

  lemma UndoHist(g: Geo, v0: Vol, b: Book, v: Vol, ch: seq<Cluster>, data: seq<byte>, m: nat,
                 h: seq<Vol>, h': seq<Vol>, from: nat)
    requires Inv(g, v0, b) && Building(g, v0, b, v, ch, data, m) && from <= |h| && h <= h'
    requires UntouchedSince(g, b.chains, v0, h, from)
    requires forall k :: |h| <= k < |h'| ==> Releasing(h'[k], v, v.(fat := v0.fat))
    ensures UntouchedSince(g, b.chains, v0, h', from)
  {
    hide Untouched, Building, Releasing, Inv;
    forall k | from <= k < |h'| ensures Untouched(g, b.chains, v0, h'[k]) {
      if k >= |h| { ReleasingUntouched(g, v0, b, v, ch, data, m, h'[k]); }
    }
  }

  /** Gives the whole chain back: the FAT is what it was before the chain was begun. */
  method UndoChain(fs: Volume, first: nat, ghost v0: Vol, ghost b: Book, ghost ch: seq<Cluster>,
                   ghost data: seq<byte>, ghost m: nat, ghost from: nat)
    requires fs.Valid() && Inv(fs.g, v0, b) && Building(fs.g, v0, b, fs.vol, ch, data, m)
    requires ch != [] && first == ch[0]
    requires from <= |fs.hist| && UntouchedSince(fs.g, b.chains, v0, fs.hist, from)
    modifies fs.Arrays(), fs`vol, fs`hist, fs`cacheNext
    ensures fs.Valid() && fs.vol.fat == v0.fat && Untouched(fs.g, b.chains, v0, fs.vol)
    ensures old(fs.hist) <= fs.hist && UntouchedSince(fs.g, b.chains, v0, fs.hist, from)
  {
    BuildingUntouched(fs.g, v0, b, fs.vol, ch, data, m);
    hide Volume.Valid, View, Inv, Building, Untouched, UntouchedSince, FatOk, Releasing;
    ghost var v, h := fs.vol, fs.hist;
    BuildUndone(fs.g, v0, b, v, ch, data, m);
    FreeClusterChain(fs, first);
    UndoHist(fs.g, v0, b, v, ch, data, m, h, fs.hist, from);
  }

  /** Takes one more cluster and links it behind the chain; 0 when there is none. */
  method ExtendBuilt(fs: Volume, cur: nat, ghost v0: Vol, ghost b: Book, ghost ch: seq<Cluster>,
                     ghost data: seq<byte>, ghost m: nat, ghost from: nat)
    returns (next: nat)
    requires fs.Valid() && Inv(fs.g, v0, b) && Building(fs.g, v0, b, fs.vol, ch, data, m)
    requires ch != [] && cur == Tail(ch)
    requires from <= |fs.hist| && UntouchedSince(fs.g, b.chains, v0, fs.hist, from)
    modifies fs.Arrays(), fs`vol, fs`hist, fs`cacheNext
    ensures fs.Valid()
    ensures next == 0 <==> FreeClusters(fs.g, old(fs.vol.fat)) == 0
    ensures next == 0 ==> fs.vol == old(fs.vol)
    ensures next != 0 ==> next >= 2 && Building(fs.g, v0, b, fs.vol, ch + [next], data, m)
    ensures old(fs.hist) <= fs.hist && UntouchedSince(fs.g, b.chains, v0, fs.hist, from)
  {
    hide Volume.Valid, View, Inv, Building, Untouched, UntouchedSince, FatOk;
    BuildingUntouched(fs.g, v0, b, fs.vol, ch, data, m);
    ghost var v, h := fs.vol, fs.hist;
    next := AllocCluster(fs);
    if next != 0 {
      BuildLink(fs.g, v0, b, v, ch, data, m, next);
      StoredLink(fs.g, next);
      UntouchedOne(fs.g, b.chains, v0, h, fs.vol, from);
      ghost var h1 := fs.hist;
      fs.WriteFatEntry(cur, next);
      BuildingUntouched(fs.g, v0, b, fs.vol, ch + [next], data, m);
      UntouchedOne(fs.g, b.chains, v0, h1, fs.vol, from);
    }
  }

  lemma LongerIsFuller(g: Geo, v0: Vol, b: Book, v: Vol, v': Vol, ch: seq<Cluster>, c: Cluster, data: seq<byte>, m: nat)
    requires Building(g, v0, b, v, ch, data, m) && Building(g, v0, b, v', ch + [c], data, m)
    ensures FreeClusters(g, v'.fat) < FreeClusters(g, v.fat)
  {
  }

  /** The loop of the data phase: the clusters before `cur` are full, and `cur` is next to be filled. */
  method FillChain(fs: Volume, first: nat, data: seq<byte>, ghost v0: Vol, ghost b: Book, ghost from: nat)
    returns (done: bool, ghost ch: seq<Cluster>)
    requires fs.Valid() && Inv(fs.g, v0, b) && data != [] && first >= 2
      && Building(fs.g, v0, b, fs.vol, [first], data, 0)
    requires from <= |fs.hist| && UntouchedSince(fs.g, b.chains, v0, fs.hist, from)
    modifies fs.Arrays(), fs`vol, fs`hist, fs`cacheNext
    ensures fs.Valid()
    ensures !done ==> |data| > 512 * Times(FreeClusters(fs.g, v0.fat), fs.g.spc)
    ensures !done ==> fs.vol.fat == v0.fat && Untouched(fs.g, b.chains, v0, fs.vol)
    ensures done ==> DataWritten(fs.g, v0, b, fs.vol, first, ch, data)
    ensures old(fs.hist) <= fs.hist && UntouchedSince(fs.g, b.chains, v0, fs.hist, from)
  {
    hide Volume.Valid, View, Inv, Building, Untouched;
    var cur, written := first, 0;
    ch := [first];
    ghost var m := 0;
    while written < |data|
      invariant fs.Valid() && Building(fs.g, v0, b, fs.vol, ch, data, m)
      invariant ch != [] && first == ch[0] && cur == Tail(ch)
      invariant written <= |data| && |data| > 512 * Times(|ch| - 1, fs.g.spc)
      invariant if written < |data| then m == Times(|ch| - 1, fs.g.spc) && written == 512 * m else |data| <= 512 * m
      invariant from <= |fs.hist| && old(fs.hist) <= fs.hist && UntouchedSince(fs.g, b.chains, v0, fs.hist, from)
      decreases FreeClusters(fs.g, fs.vol.fat), |data| - written
    {
      BuildingUntouched(fs.g, v0, b, fs.vol, ch, data, m);
      written, m := FillCluster(fs, cur, data, written, v0, b, ch, from);
      if written < |data| {
        BuildingUntouched(fs.g, v0, b, fs.vol, ch, data, m);
        ghost var v := fs.vol;
        cur := ExtendBuilt(fs, cur, v0, b, ch, data, m, from);
        if cur == 0 {
          UndoChain(fs, first, v0, b, ch, data, m, from);
          return false, ch;
        }
        LongerIsFuller(fs.g, v0, b, v, fs.vol, ch, cur, data, m);
        ch := ch + [cur];
      }
    }
    done := true;
  }

  lemma DataFits(g: Geo, v0: Vol, b: Book, v: Vol, first: nat, ch: seq<Cluster>, data: seq<byte>)
    requires DataWritten(g, v0, b, v, first, ch, data)
    ensures g.Ok() && |data| <= 512 * Times(FreeClusters(g, v0.fat), g.spc) && first >= 2
  {
    var m :| |data| <= 512 * m && Building(g, v0, b, v, ch, data, m);
    BuildingUntouched(g, v0, b, v, ch, data, m);
    TimesMonotone(|ch|, FreeClusters(g, v0.fat), g.spc);
  }

  /**
   The data phase of fat_create: a fresh chain that holds `data`, or 0 when the volume is too full;
   then everything taken was given back and the FAT is exactly what it was.
   */
  method WriteData(fs: Volume, data: seq<byte>) returns (first: nat, ghost ch: seq<Cluster>)
    requires fs.Valid() && Inv(fs.g, fs.vol, fs.book) && data != []
    modifies fs.Arrays(), fs`vol, fs`hist, fs`cacheNext
    ensures fs.Valid()
    ensures first == 0 <==> |data| > 512 * Times(FreeClusters(fs.g, old(fs.vol.fat)), fs.g.spc)
    ensures first == 0 ==> fs.vol.fat == old(fs.vol.fat) && Untouched(fs.g, old(fs.book).chains, old(fs.vol), fs.vol)
    ensures first != 0 ==> DataWritten(fs.g, old(fs.vol), old(fs.book), fs.vol, first, ch, data)
    ensures old(fs.hist) <= fs.hist
    ensures UntouchedSince(fs.g, old(fs.book).chains, old(fs.vol), fs.hist, |old(fs.hist)|)
  {
    ghost var v0, b, from := fs.vol, fs.book, |fs.hist|;
    ch := [];
    assert FatOk(fs.g, v0.fat) && Untouched(fs.g, b.chains, v0, v0);
    hide Volume.Valid, View, Inv, Building, Untouched, FatOk, DataWritten;
    first := AllocCluster(fs);
    if first == 0 {
      return;
    }
    BuildBegin(fs.g, v0, b, first, data);
    BuildingUntouched(fs.g, v0, b, fs.vol, [first], data, 0);
    var done;
    done, ch := FillChain(fs, first, data, v0, b, from);
    if done {
      DataFits(fs.g, v0, b, fs.vol, first, ch, data);
    } else {
      first := 0;
    }
  }

  /** The chain `ch` from `first` was built out of free clusters, holds `data` and is no longer than needed. */
  ghost predicate DataWritten(g: Geo, v0: Vol, b: Book, v: Vol, first: nat, ch: seq<Cluster>, data: seq<byte>) {
    && ch != [] && first == ch[0] && |data| > 512 * Times(|ch| - 1, g.spc)
    && exists m :: |data| <= 512 * m && Building(g, v0, b, v, ch, data, m)
  }

  lemma TimesMonotone(a: nat, b: nat, n: nat)
    requires a <= b
    ensures Times(a, n) <= Times(b, n)
  {
    if a < b { TimesStep(a, b, n); }
  }
}
