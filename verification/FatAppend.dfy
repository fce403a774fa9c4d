/** fat_append: where the new bytes land, and when the result is the concatenation. */
module FatAppend {
  import opened Basics
  import opened FatLayout
  import opened FatView
  import opened FatInv
  import opened FatSteps
  import opened FatVolume
  import opened FatAlloc
  import opened FatDir
  import opened FatGrow
  import opened FatData
  import opened FatCreate
  import opened FatUnlink
  import opened FatRename
  import opened FatFile
  import opened FatOnCard

  // ----- writing into a file's own chain -----

  /** Every entry whose chain starts at `h` records at most `limit` bytes. */
  ghost predicate UsersBelow(g: Geo, v: Vol, dirs: set<nat>, h: nat, limit: nat)
    requires Shape(g, v)
  {
    forall y, m: Name :: y in dirs && Entry(g, v, y, m).Some? && Entry(g, v, y, m).value.head == h ==>
      Entry(g, v, y, m).value.size <= limit
  }

  /** A chain's bytes after one of its sectors is rewritten. */
  lemma RawWrite(area: seq<Sector>, secs: seq<nat>, j: nat, s: Sector)
    requires InArea(area, secs) && j < |secs|
    requires forall i :: 0 <= i < |secs| && i != j ==> secs[i] != secs[j]
    ensures Raw(area[secs[j] := s], secs) == Raw(area, secs)[..512 * j] + s + Raw(area, secs)[512 * j + 512..]
  {
    var r, r' := Raw(area, secs), Raw(area[secs[j] := s], secs);
    var t := r[..512 * j] + s + r[512 * j + 512..];
    forall p | 0 <= p < |r'| ensures r'[p] == t[p] {
      if p / 512 == j { assert p % 512 == p - 512 * j; }
    }
  }

  lemma ChainOwnSecs(g: Geo, v: Vol, b: Book, h: nat)
    requires Inv(g, v, b) && h in b.chains
    ensures InArea(v.area, ChainSecs(g, b.chains[h])) && !IsRoot16(g, h)
    ensures forall i, j :: 0 <= i < j < |ChainSecs(g, b.chains[h])| ==>
      ChainSecs(g, b.chains[h])[i] != ChainSecs(g, b.chains[h])[j]
  {
    HeadsAreClusters(g, v.fat, b.chains, h);
    DirSecsAreBooked(g, v, b, h);
    var secs := ChainSecs(g, b.chains[h]);
    forall i, j | 0 <= i < j < |secs| ensures secs[i] != secs[j] {
      if secs[i] == secs[j] { ChainSecsDistinct(g, b.chains[h], i, j); }
    }
  }

  /** Rewriting sector `j` of a file beyond what its entry records changes nothing anyone reads. */
  lemma FileWrite(g: Geo, v: Vol, b: Book, h: nat, j: nat, keep: nat, s: Sector)
    requires Inv(g, v, b) && h in b.chains && h !in b.dirs && j < |ChainSecs(g, b.chains[h])| && keep <= 512
    requires UsersBelow(g, v, b.dirs, h, 512 * j + keep)
    requires ChainSecs(g, b.chains[h])[j] < |v.area| && s[..keep] == v.area[ChainSecs(g, b.chains[h])[j]][..keep]
    ensures var v' := v.(area := v.area[ChainSecs(g, b.chains[h])[j] := s]);
            Inv(g, v', b) && Same(g, v, v', b.dirs, {})
  {
    hide Legible;
    var secs := ChainSecs(g, b.chains[h]);
    var v' := v.(area := v.area[secs[j] := s]);
    SoundLegible(g, v, b, v');
    FileWriteOthers(g, v, b, h, j, s);
    assert ChainsOk(g, v'.fat, b.chains);
    forall y | y in b.dirs ensures DirOk(g, v', b, y) {
      DirKept(g, v, b, v', b, y);
    }
    forall y, m: Name | y in b.dirs
      ensures Entry(g, v', y, m) == Entry(g, v, y, m) && SameFile(g, v, v', Entry(g, v, y, m))
    {
      CarryDir(g, v, b, v', y, m);
      if Entry(g, v, y, m).Some? && Entry(g, v, y, m).value.head == h {
        FileWriteOwn(g, v, b, h, j, keep, s, y, m);
      } else {
        CarryFileIfAny(g, v, b, v', b.chains, y, m);
      }
    }
  }

  /** Chains other than `h`, and the fixed root directory, do not contain its sectors. */
  lemma FileWriteOthers(g: Geo, v: Vol, b: Book, h: nat, j: nat, s: Sector)
    requires Inv(g, v, b) && h in b.chains && j < |ChainSecs(g, b.chains[h])|
    requires ChainSecs(g, b.chains[h])[j] < |v.area|
    ensures var area' := v.area[ChainSecs(g, b.chains[h])[j] := s];
      forall y :: (IsRoot16(g, y) || y in b.chains) && y != h ==> AgreeOn(v.area, area', Secs(g, b, y))
  {
    var a := ChainSecs(g, b.chains[h])[j];
    HeadsAreClusters(g, v.fat, b.chains, h);
    forall y | (IsRoot16(g, y) || y in b.chains) && y != h ensures AgreeOn(v.area, v.area[a := s], Secs(g, b, y)) {
      forall i | 0 <= i < |Secs(g, b, y)| ensures Secs(g, b, y)[i] != a {
        if Secs(g, b, y)[i] == a { SecsApart(g, v.fat, b, y, i, h, j); }
      }
    }
  }

  /** A sector that keeps its first bytes keeps everything before them. */
  lemma RawKeeps(area: seq<Sector>, secs: seq<nat>, j: nat, keep: nat, s: Sector, n: nat)
    requires InArea(area, secs) && j < |secs| && keep <= 512 && n <= 512 * j + keep
    requires forall i, k :: 0 <= i < k < |secs| ==> secs[i] != secs[k]
    requires s[..keep] == area[secs[j]][..keep]
    ensures InArea(area[secs[j] := s], secs) && n <= |Raw(area, secs)| == |Raw(area[secs[j] := s], secs)|
    ensures Raw(area[secs[j] := s], secs)[..n] == Raw(area, secs)[..n]
  {
    var r, r' := Raw(area, secs), Raw(area[secs[j] := s], secs);
    forall p | 0 <= p < n ensures r'[p] == r[p] {
      if p / 512 == j {
        assert p % 512 < keep;
        assert s[..keep][p % 512] == area[secs[j]][..keep][p % 512];
      }
    }
  }

  lemma OwnReadable(g: Geo, v: Vol, b: Book, v': Vol, h: nat, e: Ent)
    requires Inv(g, v, b) && h in b.chains && Shape(g, v') && v'.fat == v.fat && e.head == h
    ensures SecsFrom(g, v.fat, e.head) == ChainSecs(g, b.chains[h]) && Readable(g, v', e)
  {
    hide DirOk, FatOk, ChainSecs;
    ChainOfChain(g, v.fat, b.chains[h]);
    ChainReadable(g, v', b.chains[h], e);
  }

  lemma FileWriteOwn(g: Geo, v: Vol, b: Book, h: nat, j: nat, keep: nat, s: Sector, y: nat, m: Name)
    requires Inv(g, v, b) && h in b.chains && j < |ChainSecs(g, b.chains[h])| && keep <= 512
    requires ChainSecs(g, b.chains[h])[j] < |v.area| && s[..keep] == v.area[ChainSecs(g, b.chains[h])[j]][..keep]
    requires y in b.dirs && Entry(g, v, y, m).Some? && Entry(g, v, y, m).value.head == h
    requires Entry(g, v, y, m).value.size <= 512 * j + keep
    ensures SameFile(g, v, v.(area := v.area[ChainSecs(g, b.chains[h])[j] := s]), Entry(g, v, y, m))
  {
    hide Inv, Entry, Raw, SecsFrom, ChainSecs, IsChain, FatOk, Readable;
    InvRoot(g, v, b);
    InvTable(g, v, b);
    var secs, n := ChainSecs(g, b.chains[h]), Entry(g, v, y, m).value.size;
    var v' := v.(area := v.area[secs[j] := s]);
    ChainOwnSecs(g, v, b, h);
    OwnReadable(g, v, b, v', h, Entry(g, v, y, m).value);
    RawKeeps(v.area, secs, j, keep, s, n);
  }

  // ----- the append under way -----

  /** What an append works on: a file's chain from `h`, of which `base` is the part before the new bytes. */
  datatype Job = Job(v0: Vol, b: Book, h: nat, base: seq<byte>, data: seq<byte>, total: nat)

  function WithChain(b: Book, h: nat, ch: seq<Cluster>): Book {
    b.(chains := b.chains[h := ch])
  }

  /** The chain holds `base` and the first `w` bytes of the data, and nobody can tell yet. */
  ghost predicate Appending(g: Geo, J: Job, v: Vol, ch: seq<Cluster>, w: nat) {
    && Inv(g, v, WithChain(J.b, J.h, ch)) && J.h !in J.b.dirs && Same(g, J.v0, v, J.b.dirs, {})
    && UsersBelow(g, J.v0, J.b.dirs, J.h, |J.base|)
    && w <= |J.data| && HoldsBytes(g, v, ch, J.base + J.data[..w])
    && |ch| + FreeClusters(g, v.fat) == J.total
  }

  ghost predicate HoldsBytes(g: Geo, v: Vol, ch: seq<Cluster>, bytes: seq<byte>) {
    var secs := ChainSecs(g, ch);
    InArea(v.area, secs) && |bytes| <= 512 * |secs| && Raw(v.area, secs)[..|bytes|] == bytes
  }

  /** A sector write at the end of the bytes held so far extends them. */
  lemma HoldsMore(g: Geo, v: Vol, ch: seq<Cluster>, bytes: seq<byte>, j: nat, s: Sector, more: seq<byte>)
    requires HoldsBytes(g, v, ch, bytes) && NoDup(ch)
    requires j == |bytes| / 512 && j < |ChainSecs(g, ch)| && |bytes| % 512 + |more| <= 512
    requires var keep, a := |bytes| % 512, ChainSecs(g, ch)[j];
      s[..keep] == v.area[a][..keep] && s[keep..keep + |more|] == more
    ensures HoldsBytes(g, v.(area := v.area[ChainSecs(g, ch)[j] := s]), ch, bytes + more)
  {
    var secs, keep := ChainSecs(g, ch), |bytes| % 512;
    forall i | 0 <= i < |secs| && i != j ensures secs[i] != secs[j] {
      if secs[i] == secs[j] { ChainSecsDistinct(g, ch, i, j); }
    }
    var r, r', t := Raw(v.area, secs), Raw(v.area[secs[j] := s], secs), bytes + more;
    RawWrite(v.area, secs, j, s);
    assert |bytes| == 512 * j + keep;
    forall p | 0 <= p < |t| ensures r'[p] == t[p] {
      if p < 512 * j {
        assert r[..|bytes|][p] == r[p];
      } else if p < |bytes| {
        assert r'[p] == s[p - 512 * j] == s[..keep][p - 512 * j];
        assert r[..|bytes|][p] == r[p] == v.area[secs[j]][p - 512 * j];
      } else {
        assert r'[p] == s[p - 512 * j] == s[keep..keep + |more|][p - |bytes|];
      }
    }
    assert r'[..|t|] == t;
  }

  /** The chain's last cluster has its sector `s` where the next byte goes. */
  ghost predicate NextSector(g: Geo, J: Job, ch: seq<Cluster>, w: nat, s: nat) {
    ch != [] && s < g.spc && (|J.base| + w) / 512 == Times(|ch| - 1, g.spc) + s
  }

  lemma UsersCarried(g: Geo, v: Vol, v': Vol, dirs: set<nat>, h: nat, limit: nat, limit': nat)
    requires Same(g, v, v', dirs, {}) && UsersBelow(g, v, dirs, h, limit) && limit <= limit'
    ensures UsersBelow(g, v', dirs, h, limit')
  {
    forall y, m: Name | y in dirs && Entry(g, v', y, m).Some? && Entry(g, v', y, m).value.head == h
      ensures Entry(g, v', y, m).value.size <= limit'
    {
      assert Entry(g, v, y, m) == Entry(g, v', y, m);
    }
  }

  lemma AppendingFacts(g: Geo, J: Job, v: Vol, ch: seq<Cluster>, w: nat)
    requires Appending(g, J, v, ch, w)
    ensures g.Ok() && Shape(g, v) && FatOk(g, v.fat) && IsChain(g, v.fat, ch) && ch != [] && g.InData(Tail(ch))
      && NoDup(ch)
    ensures Keeps(g, J.v0, v, J.b.dirs, {})
    ensures w <= |J.data| && |J.base| + w <= 512 * Times(|ch|, g.spc)
    ensures |ch| + FreeClusters(g, v.fat) == J.total
  {
    assert WithChain(J.b, J.h, ch).chains[J.h] == ch;
    ChainSecsLen(g, ch);
    SameKeeps(g, J.v0, v, J.b.dirs, {}, {});
  }

  /** Where the next sector lies on the card. */
  lemma NextSectorAt(g: Geo, J: Job, v: Vol, ch: seq<Cluster>, w: nat, s: nat)
    requires Appending(g, J, v, ch, w) && NextSector(g, J, ch, w, s)
    ensures g.SecOf(Tail(ch), s) < |v.area| && Shape(g, v) && g.InData(Tail(ch))
    ensures var j := (|J.base| + w) / 512; j < |ChainSecs(g, ch)| && ChainSecs(g, ch)[j] == g.SecOf(Tail(ch), s)
  {
    hide Inv, Same, UsersBelow, NoDup, IsChain, FatOk, Keeps, FreeClusters, HoldsBytes;
    AppendingFacts(g, J, v, ch, w);
    SecOfInRange(g, Tail(ch), s);
    ChainSecsAt(g, ch, |ch| - 1, s);
  }

  lemma DataSoFar(base: seq<byte>, data: seq<byte>, w: nat, take: nat)
    requires w + take <= |data|
    ensures base + data[..w] + data[w..w + take] == base + data[..w + take]
  {
  }

  lemma WithChainIs(b: Book, h: nat, ch: seq<Cluster>)
    ensures WithChain(b, h, ch).dirs == b.dirs && h in WithChain(b, h, ch).chains && WithChain(b, h, ch).chains[h] == ch
  {
  }

  /** The next sector takes the next bytes. */
  lemma AppendSector(g: Geo, J: Job, v: Vol, ch: seq<Cluster>, w: nat, s: nat, data: Sector, take: nat)
    requires Appending(g, J, v, ch, w) && NextSector(g, J, ch, w, s)
    requires g.SecOf(Tail(ch), s) < |v.area|
    requires var keep := (|J.base| + w) % 512;
      && keep + take <= 512 && w + take <= |J.data|
      && data[..keep] == v.area[g.SecOf(Tail(ch), s)][..keep] && data[keep..keep + take] == J.data[w..w + take]
    ensures Appending(g, J, v.(area := v.area[g.SecOf(Tail(ch), s) := data]), ch, w + take)
  {
    hide Inv, Same, HoldsBytes, UsersBelow, NoDup, IsChain, FatOk, NextSector, Keeps, FreeClusters, ChainSecs,
      WithChain;
    AppendingFacts(g, J, v, ch, w);
    NextSectorAt(g, J, v, ch, w, s);
    WithChainIs(J.b, J.h, ch);
    var j, keep := (|J.base| + w) / 512, (|J.base| + w) % 512;
    var v' := v.(area := v.area[g.SecOf(Tail(ch), s) := data]);
    UsersCarried(g, J.v0, v, J.b.dirs, J.h, |J.base|, 512 * j + keep);
    HoldsMore(g, v, ch, J.base + J.data[..w], j, data, J.data[w..w + take]);
    DataSoFar(J.base, J.data, w, take);
    FileWrite(g, v, WithChain(J.b, J.h, ch), J.h, j, keep, data);
    SameTrans(g, J.v0, v, v', J.b.dirs, {}, {});
    NothingMore<(nat, Name)>({});
  }

  /** A further cluster is taken and linked behind the chain. */
  lemma AppendLink(g: Geo, J: Job, v: Vol, ch: seq<Cluster>, w: nat, nc: Cluster)
    requires Appending(g, J, v, ch, w) && g.InData(nc) && Shape(g, v) && v.fat[nc] == 0
    ensures ch != [] && Tail(ch) < |v.fat|
    ensures var v1 := v.(fat := v.fat[nc := g.Eoc()]);
      Keeps(g, J.v0, v1, J.b.dirs, {}) && Appending(g, J, v1.(fat := v1.fat[Tail(ch) := nc]), ch + [nc], w)
  {
    hide HoldsBytes, UsersBelow, ChainsOk, BookOk, DirOk, LinksOk, Same;
    AppendingFacts(g, J, v, ch, w);
    var v1 := v.(fat := v.fat[nc := g.Eoc()]);
    var v2 := v1.(fat := v1.fat[Tail(ch) := nc]);
    var b := WithChain(J.b, J.h, ch);
    TakeCluster(g, v, b, nc);
    FreeCountSet(v.fat, g.clusters + 2, nc, g.Eoc());
    FreeCountSet(v1.fat, g.clusters + 2, Tail(ch), nc);
    assert v1.fat[Tail(ch)] != 0;
    assert Grown(b, J.h, nc) == WithChain(J.b, J.h, ch + [nc]);
    HoldsLonger(g, v, ch, nc, v2, J.base + J.data[..w]);
    hide IsChain, FreeClusters;
    GrowFile(g, v1, b, J.h, nc);
    SameTrans(g, J.v0, v, v1, J.b.dirs, {}, {});
    SameTrans(g, J.v0, v1, v2, J.b.dirs, {}, {});
    NothingMore<(nat, Name)>({});
    SameKeeps(g, J.v0, v1, J.b.dirs, {}, {});
  }

  lemma HoldsLonger(g: Geo, v: Vol, ch: seq<Cluster>, nc: Cluster, v': Vol, bytes: seq<byte>)
    requires HoldsBytes(g, v, ch, bytes) && v'.area == v.area && Shape(g, v) && g.InData(nc)
    ensures HoldsBytes(g, v', ch + [nc], bytes)
  {
    hide ChainSecs;
    var secs, secs' := ChainSecs(g, ch), ChainSecs(g, ch + [nc]);
    ChainSecsSnoc(g, ch, nc);
    forall j | 0 <= j < |secs'| ensures secs'[j] < |v.area| {
      if j >= |secs| {
        assert secs'[j] == g.SecOf(nc, j - |secs|);
        SecOfInRange(g, nc, j - |secs|);
      }
    }
    assert Raw(v'.area, secs')[..|bytes|] == Raw(v.area, secs)[..|bytes|];
  }

  // ----- writing the new bytes -----

  lemma KeptOne(g: Geo, v: Vol, dirs: set<nat>, ex: set<(nat, Name)>, h: seq<Vol>, x: Vol, from: nat)
    requires KeptSince(g, v, dirs, ex, h, from) && from <= |h| && Keeps(g, v, x, dirs, ex)
    ensures KeptSince(g, v, dirs, ex, h + [x], from)
    ensures KeptSince(g, v, dirs, ex, h + [x, x], from)
  {
  }

  /** The chain is where the append stands, and at no moment since `from` was anything lost. */
  ghost predicate Stands(fs: Volume, J: Job, ch: seq<Cluster>, w: nat, h: seq<Vol>)
    reads fs, fs.Arrays()
  {
    && fs.Valid() && Appending(fs.g, J, fs.vol, ch, w)
    && h <= fs.hist && KeptSince(fs.g, J.v0, J.b.dirs, {}, fs.hist, |h|)
  }

  /** The bytes held so far end where sector `s` of the chain's last cluster begins. */
  ghost predicate AtSector(g: Geo, J: Job, ch: seq<Cluster>, w: nat, s: nat) {
    ch != [] && s <= g.spc && |J.base| + w == 512 * (Times(|ch| - 1, g.spc) + s)
  }

  /** A whole sector comes next, and behind it, if any data is left, the one after it. */
  lemma WholeSector(g: Geo, J: Job, ch: seq<Cluster>, w: nat, s: nat, data: seq<byte>, take: nat)
    requires AtSector(g, J, ch, w, s) && s < g.spc && w < |data|
    requires take == if |data| - w < 512 then |data| - w else 512
    ensures NextSector(g, J, ch, w, s) && (|J.base| + w) % 512 == 0
    ensures g.SecOf(Tail(ch), 0) + s == g.SecOf(Tail(ch), s)
    ensures w + take < |data| ==> AtSector(g, J, ch, w + take, s + 1)
  {
    hide Times;
  }

  lemma ChunkTakes(data: seq<byte>, w: nat, take: nat)
    requires w < |data| && take == if |data| - w < 512 then |data| - w else 512
    ensures Chunk(data, w)[..take] == data[w..w + take] && Chunk(data, w)[0..take] == data[w..w + take]
  {
  }

  lemma AtNextSector(g: Geo, J: Job, v: Vol, ch: seq<Cluster>, w: nat, s: nat, data: seq<byte>, take: nat)
    requires Appending(g, J, v, ch, w) && AtSector(g, J, ch, w, s) && s < g.spc && w < |data| && J.data == data
    requires take == if |data| - w < 512 then |data| - w else 512
    ensures g.SecOf(Tail(ch), 0) + s == g.SecOf(Tail(ch), s) < |v.area| && Shape(g, v)
    ensures var v' := v.(area := v.area[g.SecOf(Tail(ch), s) := Chunk(data, w)]);
      Appending(g, J, v', ch, w + take) && Keeps(g, J.v0, v', J.b.dirs, {})
    ensures w + take < |data| ==> AtSector(g, J, ch, w + take, s + 1)
  {
    hide Appending, Keeps, HoldsBytes, AtSector, NextSector, Chunk;
    WholeSector(g, J, ch, w, s, data, take);
    ChunkTakes(data, w, take);
    NextSectorAt(g, J, v, ch, w, s);
    AppendSector(g, J, v, ch, w, s, Chunk(data, w), take);
    AppendingFacts(g, J, v.(area := v.area[g.SecOf(Tail(ch), s) := Chunk(data, w)]), ch, w + take);
  }

  /** Writes whole sectors, zero-padded, from sector `start` of the last cluster on. */
  method FillSectors(fs: Volume, cur: Cluster, start: nat, data: seq<byte>, w0: nat,
                     ghost J: Job, ghost ch: seq<Cluster>, ghost h: seq<Vol>)
    returns (w: nat)
    requires Stands(fs, J, ch, w0, h) && J.data == data && ch != [] && cur == Tail(ch)
    requires w0 < |data| ==> AtSector(fs.g, J, ch, w0, start)
    modifies fs.Arrays(), fs`vol, fs`hist
    ensures Stands(fs, J, ch, w, h) && w0 <= w <= |data|
    ensures w < |data| ==> |J.base| + w == 512 * Times(|ch|, fs.g.spc)
    ensures w0 < |data| && start < fs.g.spc ==> w0 < w
  {
    hide Volume.Valid, View, Appending, Keeps;
    AppendingW(fs.g, J, fs.vol, ch, w0);
    w := w0;
    var s: nat := start;
    while w < |data| && s < fs.g.spc
      invariant Stands(fs, J, ch, w, h)
      invariant w < |data| ==> AtSector(fs.g, J, ch, w, s)
      invariant w0 <= w <= |data| && start <= s && (s > start ==> w0 < w)
      decreases |data| - w
    {
      ghost var take', hist := if |data| - w < 512 then |data| - w else 512, fs.hist;
      AtNextSector(fs.g, J, fs.vol, ch, w, s, data, take');
      var take := WriteChunk(fs, fs.g.AreaLba() + fs.g.SecOf(cur, 0) + s, data, w);
      KeptOne(fs.g, J.v0, J.b.dirs, {}, hist, fs.vol, |h|);
      w := w + take;
      s := s + 1;
    }
    AppendingW(fs.g, J, fs.vol, ch, w);
  }

  lemma AppendingW(g: Geo, J: Job, v: Vol, ch: seq<Cluster>, w: nat)
    requires Appending(g, J, v, ch, w)
    ensures w <= |J.data|
  {
  }

  lemma PatchParts(s: seq<byte>, at: nat, b: seq<byte>)
    requires at + |b| <= |s|
    ensures Patch(s, at, b)[..at] == s[..at] && Patch(s, at, b)[at..at + |b|] == b
  {
  }

  lemma NextIs(g: Geo, J: Job, ch: seq<Cluster>, s: nat, keep: nat)
    requires ch != [] && s < g.spc && keep < 512 && |J.base| == 512 * (Times(|ch| - 1, g.spc) + s) + keep
    ensures NextSector(g, J, ch, 0, s) && (|J.base| + 0) % 512 == keep
  {
    hide Times;
  }

  /** Puts the first bytes behind the old ones, into the half-used sector of the last cluster. */
  lemma PartialSector(g: Geo, J: Job, v: Vol, ch: seq<Cluster>, s: nat, keep: nat, first: Sector, take: nat)
    requires Appending(g, J, v, ch, 0) && ch != [] && s < g.spc
    requires |J.base| == 512 * (Times(|ch| - 1, g.spc) + s) + keep && keep + take <= 512 && take <= |J.data|
      && keep < 512
    requires Shape(g, v) && g.SecOf(Tail(ch), s) < |v.area|
    requires first == Patch(v.area[g.SecOf(Tail(ch), s)], keep, J.data[..take])
    ensures var v' := v.(area := v.area[g.SecOf(Tail(ch), s) := first]);
      Appending(g, J, v', ch, take) && Keeps(g, J.v0, v', J.b.dirs, {})
  {
    hide Appending, Keeps, ChainSecs, Patch, HoldsBytes, Times, NextSector;
    NextIs(g, J, ch, s, keep);
    PatchParts(v.area[g.SecOf(Tail(ch), s)], keep, J.data[..take]);
    assert J.data[..take] == J.data[0..0 + take];
    AppendSector(g, J, v, ch, 0, s, first, take);
    AppendingFacts(g, J, v.(area := v.area[g.SecOf(Tail(ch), s) := first]), ch, take);
  }

  lemma PartialAt(g: Geo, J: Job, v: Vol, ch: seq<Cluster>, pos: nat)
    requires Appending(g, J, v, ch, 0) && ch != [] && pos < 512 * g.spc
    requires |J.base| == 512 * Times(|ch| - 1, g.spc) + pos
    ensures pos / 512 < g.spc && g.SecOf(Tail(ch), 0) + pos / 512 == g.SecOf(Tail(ch), pos / 512) < |v.area|
    ensures Shape(g, v)
  {
    AppendingFacts(g, J, v, ch, 0);
    SecOfInRange(g, Tail(ch), pos / 512);
  }

  /** Fills what is left of the last cluster, of which `pos` bytes are in use. */
  method FillLast(fs: Volume, cur: Cluster, pos: nat, data: seq<byte>, ghost J: Job, ghost ch: seq<Cluster>,
                  ghost h: seq<Vol>)
    returns (w: nat)
    requires Stands(fs, J, ch, 0, h) && J.data == data && data != [] && ch != [] && cur == Tail(ch)
    requires 0 < pos < 512 * fs.g.spc && |J.base| == 512 * Times(|ch| - 1, fs.g.spc) + pos
    modifies fs.Arrays(), fs`vol, fs`hist
    ensures Stands(fs, J, ch, w, h) && w <= |data|
    ensures w < |data| ==> |J.base| + w == 512 * Times(|ch|, fs.g.spc)
  {
    hide Volume.Valid, View, Appending, Keeps;
    var take := 512 - pos % 512;
    if take > |data| {
      take := |data|;
    }
    PartialAt(fs.g, J, fs.vol, ch, pos);
    ghost var v, hist := fs.vol, fs.hist;
    var lba := fs.g.AreaLba() + fs.g.SecOf(cur, 0) + pos / 512;
    fs.ReadSector(lba);
    fs.CopyIn(pos % 512, data[..take]);
    PartialSector(fs.g, J, v, ch, pos / 512, pos % 512, fs.buf[..], take);
    fs.WriteSector(lba);
    KeptOne(fs.g, J.v0, J.b.dirs, {}, hist, fs.vol, |h|);
    w := FillSectors(fs, cur, pos / 512 + 1, data, take, J, ch, h);
  }

  /** Takes one more cluster and links it behind the file; 0 when there is none. */
  method ExtendFile(fs: Volume, cur: Cluster, ghost J: Job, ghost ch: seq<Cluster>, ghost w: nat, ghost h: seq<Vol>)
    returns (nc: nat)
    requires Stands(fs, J, ch, w, h) && ch != [] && cur == Tail(ch)
    modifies fs.Arrays(), fs`vol, fs`hist, fs`cacheNext
    ensures nc == 0 ==> Stands(fs, J, ch, w, h) && |ch| == J.total
    ensures nc != 0 ==> nc >= 2 && Stands(fs, J, ch + [nc], w, h)
  {
    hide Volume.Valid, View, Appending, Keeps, FatOk, IsChain, KeptSince;
    AppendingFacts(fs.g, J, fs.vol, ch, w);
    ghost var v, hist := fs.vol, fs.hist;
    nc := AllocCluster(fs);
    if nc != 0 {
      AppendLink(fs.g, J, v, ch, w, nc);
      KeptOne(fs.g, J.v0, J.b.dirs, {}, hist, fs.vol, |h|);
      LinkFile(fs, cur, nc, v, J, ch, w, h);
    }
  }

  method LinkFile(fs: Volume, cur: Cluster, nc: Cluster, ghost v: Vol,
                  ghost J: Job, ghost ch: seq<Cluster>, ghost w: nat, ghost h: seq<Vol>)
    requires fs.Valid() && h <= fs.hist && KeptSince(fs.g, J.v0, J.b.dirs, {}, fs.hist, |h|)
    requires Appending(fs.g, J, v, ch, w) && fs.g.InData(nc) && Shape(fs.g, v) && v.fat[nc] == 0
    requires fs.vol == v.(fat := v.fat[nc := fs.g.Eoc()]) && ch != [] && cur == Tail(ch)
    modifies fs.Arrays(), fs`vol, fs`hist
    ensures Stands(fs, J, ch + [nc], w, h)
  {
    hide Volume.Valid, View, Appending, Keeps, KeptSince;
    AppendLink(fs.g, J, v, ch, w, nc);
    StoredLink(fs.g, nc);
    ghost var hist := fs.hist;
    fs.WriteFatEntry(cur, nc);
    AppendingFacts(fs.g, J, fs.vol, ch + [nc], w);
    KeptOne(fs.g, J.v0, J.b.dirs, {}, hist, fs.vol, |h|);
  }

  /** All the data phase of an append, from a chain whose last cluster has `pos` bytes in use. */
  method AppendData(fs: Volume, last: Cluster, pos: nat, data: seq<byte>, ghost J: Job, ghost ch0: seq<Cluster>,
                    ghost h: seq<Vol>)
    returns (done: bool, ghost ch: seq<Cluster>, ghost w: nat)
    requires Stands(fs, J, ch0, 0, h) && J.data == data && data != [] && ch0 != [] && last == Tail(ch0)
    requires pos < 512 * fs.g.spc
    requires |J.base| == if pos > 0 then 512 * Times(|ch0| - 1, fs.g.spc) + pos else 512 * Times(|ch0|, fs.g.spc)
    modifies fs.Arrays(), fs`vol, fs`hist, fs`cacheNext
    ensures Stands(fs, J, ch, w, h)
    ensures if done then w == |data| else |J.base| + |data| > 512 * Times(J.total, fs.g.spc)
    ensures ch == ch0 || (ch != [] && |J.base| + |data| > 512 * Times(|ch| - 1, fs.g.spc))
  {
    hide Volume.Valid, View, Appending, Keeps, KeptSince;
    var cur, n := last, 0;
    ch, w := ch0, 0;
    if pos > 0 {
      n := FillLast(fs, last, pos, data, J, ch0, h);
      w := n;
    }
    while n < |data|
      invariant Stands(fs, J, ch, w, h) && w == n <= |data|
      invariant ch != [] && cur == Tail(ch)
      invariant n < |data| ==> |J.base| + n == 512 * Times(|ch|, fs.g.spc)
      invariant ch == ch0 || |J.base| + |data| > 512 * Times(|ch| - 1, fs.g.spc)
    {
      var nc := ExtendFile(fs, cur, J, ch, w, h);
      if nc == 0 {
        return false, ch, w;
      }
      ch := ch + [nc];
      cur := nc;
      SpcPositive(fs.g, J, fs.vol, ch, w);
      n := FillSectors(fs, cur, 0, data, n, J, ch, h);
      w := n;
    }
    done := true;
  }

  lemma SpcPositive(g: Geo, J: Job, v: Vol, ch: seq<Cluster>, w: nat)
    requires Appending(g, J, v, ch, w)
    ensures g.spc > 0
  {
  }

  // ----- where an append starts -----

  /** The last cluster of the chain from `start`; a circular chain is given up on. */
  method LastOfChain(fs: Volume, start: Cluster) returns (last: Option<nat>)
    requires fs.Valid() && FatOk(fs.g, fs.vol.fat) && fs.g.InData(start)
    modifies fs.Scratch(), fs`cacheNext
    ensures fs.Valid()
    ensures var ch := ChainOf(fs.g, fs.vol.fat, start);
      |ch| < fs.g.clusters + 2 ==> ch != [] && last == Some(Tail(ch))
  {
    hide Volume.Valid;
    ghost var ch := ChainOf(fs.g, fs.vol.fat, start);
    var cur, guard := start, 0;
    while true
      invariant fs.Valid() && fs.g.InData(cur) && guard <= fs.g.clusters + 2
      invariant |ch| < fs.g.clusters + 2 ==> guard < |ch| && cur == ch[guard]
      decreases fs.g.clusters + 2 - guard
    {
      if guard < |ch| {
        FollowLinks(fs.g, fs.vol.fat, start, fs.g.clusters + 2, guard);
      }
      var next := fs.FatEntry(cur);
      if fs.g.IsEoc(next) || next < 2 {
        return Some(cur);
      }
      cur := next;
      guard := guard + 1;
      if guard > fs.g.clusters + 2 {
        return None;
      }
    }
  }

  /** How many of the file's own bytes precede the first appended one. */
  function Landing(g: Geo, v: Vol, e: Ent): nat {
    var m := ChainLength(g, v, e);
    if m == 0 then 512 * g.spc
    else if g.spc > 0 && e.size % (512 * g.spc) > 0 then 512 * Times(m - 1, g.spc) + e.size % (512 * g.spc)
    else 512 * Times(m, g.spc)
  }

  /** The driver's remainder: what is over after `q` whole clusters. */
  lemma WholeClusters(spc: nat, size: nat, cb: nat) returns (q: nat, pos: nat)
    requires spc > 0 && cb == 512 * spc
    ensures pos == size % cb && pos < cb && size == 512 * Times(q, spc) + pos
  {
    q, pos := Split(cb, size);
    TimesIsProduct(q, spc);
    Regroup(q, spc, cb);
  }

  lemma Split(a: nat, n: nat) returns (q: nat, r: nat)
    requires a > 0
    ensures r == n % a && r < a && n == q * a + r
  {
    q, r := n / a, n % a;
    DivMod(a, n);
  }

  lemma DivMod(a: nat, n: nat)
    requires a > 0
    ensures n == (n / a) * a + n % a && n % a < a
  {
  }

  lemma Regroup(q: nat, spc: nat, cb: nat)
    requires cb == 512 * spc
    ensures 512 * (q * spc) == q * cb
  {
  }

  /** The remainder as a position in the last of `m` clusters. */
  lemma SizeParts(spc: nat, size: nat, m: nat)
    requires spc > 0 && size <= 512 * Times(m, spc) && m > 0
    ensures var pos := size % (512 * spc);
      && pos < 512 * spc
      && (pos > 0 ==> size <= 512 * Times(m - 1, spc) + pos)
      && (size > 512 * Times(m - 1, spc) ==> size == if pos > 0 then 512 * Times(m - 1, spc) + pos
        else 512 * Times(m, spc))
  {
    var q, pos := WholeClusters(spc, size, 512 * spc);
    Between(spc, q, pos, m);
  }

  lemma Between(spc: nat, q: nat, pos: nat, m: nat)
    requires spc > 0 && pos < 512 * spc && m > 0 && 512 * Times(q, spc) + pos <= 512 * Times(m, spc)
    ensures pos > 0 ==> Times(q, spc) <= Times(m - 1, spc)
    ensures 512 * Times(q, spc) + pos > 512 * Times(m - 1, spc) ==> q == if pos > 0 then m - 1 else m
  {
    if q < m - 1 {
      TimesStep(q, m - 1, spc);
    } else if q > m {
      TimesStep(m, q, spc);
    }
  }

  /** Nothing of the file lies behind the landing point, and it lies within the chain. */
  lemma LandingCovers(g: Geo, v: Vol, b: Book, x: nat, n: Name)
    requires Inv(g, v, b) && x in b.dirs && Entry(g, v, x, n).Some? && !Entry(g, v, x, n).value.IsDir()
    requires Entry(g, v, x, n).value.head in b.chains
    ensures var e := Entry(g, v, x, n).value;
      var m := |b.chains[e.head]|;
      && m == ChainLength(g, v, e) > 0 && g.spc > 0 && e.size <= Landing(g, v, e) <= 512 * Times(m, g.spc)
      && e.size % (512 * g.spc) < 512 * g.spc
  {
    var k := EntryFacts(g, v, b, x, n);
    var e := Entry(g, v, x, n).value;
    ChainLengthIsBooked(g, v, b, e);
    InvHead(g, v, b, e.head);
    ChainSecsLen(g, b.chains[e.head]);
    SizeParts(g.spc, e.size, |b.chains[e.head]|);
  }

  /** Only one entry names the chain, so it alone bounds the bytes in use. */
  lemma OneUser(g: Geo, v: Vol, b: Book, x: nat, n: Name, limit: nat)
    requires Inv(g, v, b) && x in b.dirs && Entry(g, v, x, n).Some? && Entry(g, v, x, n).value.head != 0
    requires Entry(g, v, x, n).value.size <= limit
    ensures UsersBelow(g, v, b.dirs, Entry(g, v, x, n).value.head, limit)
  {
    var h := Entry(g, v, x, n).value.head;
    var k := EntryFacts(g, v, b, x, n);
    forall y, m: Name | y in b.dirs && Entry(g, v, y, m).Some? && Entry(g, v, y, m).value.head == h
      ensures Entry(g, v, y, m).value.size <= limit
    {
      var i := EntryFacts(g, v, b, y, m);
    }
  }

  /** An append to a file that has a chain. */
  lemma AppendBegin(g: Geo, v: Vol, b: Book, x: nat, n: Name, data: seq<byte>) returns (J: Job)
    requires Inv(g, v, b) && x in b.dirs && Entry(g, v, x, n).Some? && !Entry(g, v, x, n).value.IsDir()
    requires Entry(g, v, x, n).value.head != 0
    ensures var e := Entry(g, v, x, n).value;
      && e.head in b.chains && |RawOf(g, v, e.head)| >= Landing(g, v, e)
      && J == Job(v, b, e.head, RawOf(g, v, e.head)[..Landing(g, v, e)], data,
                  ChainLength(g, v, e) + FreeClusters(g, v.fat))
      && Appending(g, J, v, b.chains[e.head], 0)
  {
    var k := EntryFacts(g, v, b, x, n);
    var e := Entry(g, v, x, n).value;
    LandingCovers(g, v, b, x, n);
    DirSecsAreBooked(g, v, b, e.head);
    ChainSecsLen(g, b.chains[e.head]);
    OneUser(g, v, b, x, n, Landing(g, v, e));
    SameSelf(g, v, b);
    J := Job(v, b, e.head, RawOf(g, v, e.head)[..Landing(g, v, e)], data,
             ChainLength(g, v, e) + FreeClusters(g, v.fat));
    assert J.base + data[..0] == J.base;
    assert b.chains[e.head := b.chains[e.head]] == b.chains;
    assert WithChain(b, e.head, b.chains[e.head]) == b;
  }

  /** An append to a file without a chain: a first cluster is taken, and left unused. */
  lemma AppendFresh(g: Geo, v: Vol, b: Book, c: nat, data: seq<byte>) returns (J: Job)
    requires Inv(g, v, b) && g.InData(c) && v.fat[c] == 0
    ensures J.v0 == v && J.b == b && J.h == c && J.data == data && J.total == FreeClusters(g, v.fat)
    ensures |J.base| == 512 * Times(1, g.spc) && c !in b.owner && c !in b.dirs
    ensures var v1 := v.(fat := v.fat[c := g.Eoc()]);
      Appending(g, J, v1, [c], 0) && Keeps(g, v, v1, b.dirs, {})
  {
    var v1 := v.(fat := v.fat[c := g.Eoc()]);
    TakeCluster(g, v, b, c);
    FreeCountSet(v.fat, g.clusters + 2, c, g.Eoc());
    AdoptChain(g, v1, b, [c]);
    ChainSecsLen(g, [c]);
    ChainSecsInArea(g, [c], v1.area);
    var base := Raw(v1.area, ChainSecs(g, [c]));
    J := Job(v, b, c, base, data, FreeClusters(g, v.fat));
    assert base + data[..0] == base && base[..|base|] == base;
    forall y, m: Name | y in b.dirs && Entry(g, v, y, m).Some? ensures Entry(g, v, y, m).value.head != c {
      var k := EntryFacts(g, v, b, y, m);
    }
    SameKeeps(g, v, v1, b.dirs, {}, {});
  }

  // ----- rewriting the directory entry -----

  /** A slot with a new first cluster and size; name, attributes and everything else stay. */
  function Resized(s: seq<byte>, head: nat, size: nat): (r: seq<byte>)
    requires |s| == 32 && head < 0x1_0000_0000 && size < 0x1_0000_0000
    ensures |r| == 32 && r[..11] == s[..11] && r[0] == s[0] && r[11] == s[11]
    ensures EntOf(r) == Ent(s[11], head, size)
  {
    var r := Patch(Patch(Patch(s, 28, Bytes32(size)), 26, Bytes16(head % 0x1_0000)), 20, Bytes16(head / 0x1_0000));
    assert Le16(r, 20) == Le16(Bytes16(head / 0x1_0000), 0);
    assert Le16(r, 26) == Le16(Bytes16(head % 0x1_0000), 0);
    assert Le32(r, 28) == Le32(Bytes32(size), 0);
    r
  }

  /** Only the first cluster and the size of a slot may differ. */
  ghost predicate RestKept(s: seq<byte>, r: seq<byte>) {
    |s| == 32 && |r| == 32 && forall i :: 0 <= i < 20 || 22 <= i < 26 ==> r[i] == s[i]
  }

  lemma ResizedKeeps(s: seq<byte>, head: nat, size: nat)
    requires |s| == 32 && head < 0x1_0000_0000 && size < 0x1_0000_0000
    ensures RestKept(s, Resized(s, head, size)) && Says(Resized(s, head, size), Ent(s[11], head, size))
  {
    EntSays(Resized(s, head, size), Ent(s[11], head, size));
    hide Says, EntOf, Bytes16, Bytes32;
  }

  /** The slot that `n` names says `e`, and is else as it was. */
  ghost predicate SlotUpdated(g: Geo, v: Vol, v': Vol, x: nat, n: Name, e: Ent) {
    exists s, r :: WrittenAt(g, v, x, n, s) && WrittenAt(g, v', x, n, r) && RestKept(s, r) && Says(r, e)
  }

  lemma UpdatedSlot(g: Geo, v: Vol, v': Vol, x: nat, n: Name, s: seq<byte>, head: nat, size: nat)
    requires |s| == 32 && head < 0x1_0000_0000 && size < 0x1_0000_0000
    requires WrittenAt(g, v, x, n, s) && WrittenAt(g, v', x, n, Resized(s, head, size))
    ensures SlotUpdated(g, v, v', x, n, Ent(s[11], head, size))
  {
    hide WrittenAt, Resized, RestKept, Says;
    ResizedKeeps(s, head, size);
  }

  /** Slot `k`, which holds the file `n`, takes a new size and names the chain from `h`. */
  lemma UpdateEntry(g: Geo, v: Vol, b: Book, x: nat, k: nat, n: Name, h: nat, size: nat)
    requires Inv(g, v, b) && x in b.dirs && size < 0x1_0000_0000
    requires InArea(v.area, Secs(g, b, x)) && FoundAt(v.area, Secs(g, b, x), n, k)
    requires h in b.chains && h !in b.dirs && size <= 512 * |ChainSecs(g, b.chains[h])|
    requires var e := EntOf(Slot(v.area, Secs(g, b, x), k));
      !e.IsDir() && (e.head == h || h !in b.owner)
    ensures h < 0x1_0000_0000
    ensures var s := Slot(v.area, Secs(g, b, x), k);
      var v' := v.(area := PutSlot(v.area, Secs(g, b, x), k, Resized(s, h, size)));
      && Inv(g, v', Own(b, h, x, k)) && Same(g, v, v', b.dirs, {(x, n)})
      && Entry(g, v', x, n) == Some(Ent(s[11], h, size)) && SlotUpdated(g, v, v', x, n, Ent(s[11], h, size))
  {
    hide WrittenAt, SlotUpdated;
    HeadsAreClusters(g, v.fat, b.chains, h);
    var s := Slot(v.area, Secs(g, b, x), k);
    NamedSlot(g, v, b, x, k, n);
    UpdateOwner(g, v, b, x, k, s, h, size);
    hide Inv, SlotOk, Resized, EntOk, FoundAt, Own;
    WriteEntry(g, v, b, x, k, Resized(s, h, size), n, Own(b, h, x, k), {(x, n)});
    FoundIsWritten(g, v, b, x, k, n);
    UpdatedSlot(g, v, v.(area := PutSlot(v.area, Secs(g, b, x), k, Resized(s, h, size))), x, n, s, h, size);
  }

  /** The slot where a name is found is the only one with that name, and it owns its chain. */
  lemma NamedSlot(g: Geo, v: Vol, b: Book, x: nat, k: nat, n: Name)
    requires Inv(g, v, b) && x in b.dirs
    requires InArea(v.area, Secs(g, b, x)) && FoundAt(v.area, Secs(g, b, x), n, k)
    ensures var s := Slot(v.area, Secs(g, b, x), k);
      && s[..11] == n && s[0] == n[0] && !IsVolumeLabel(s) && EntOk(g, b, x, k, EntOf(s))
      && NewName(v.area, Secs(g, b, x), k, s) && NamesExempt(x, s, {(x, n)})
      && NoZeroBefore(v.area, Secs(g, b, x), k)
  {
    assert DirOk(g, v, b, x);
    var secs := Secs(g, b, x);
    var s := Slot(v.area, secs, k);
    assert s[0] == s[..11][0];
    assert SlotOk(g, b, x, k, s);
    hide Inv, EntOk, EntOf;
    forall i | 0 <= i < 16 * |secs| && i != k && Proper(Slot(v.area, secs, i))
      ensures Slot(v.area, secs, i)[..11] != s[..11]
    {
      if i < k {
        assert Slot(v.area, secs, i)[..11] != Slot(v.area, secs, k)[..11];
      } else {
        assert Slot(v.area, secs, k)[..11] != Slot(v.area, secs, i)[..11];
      }
    }
  }

  lemma UpdateOwner(g: Geo, v: Vol, b: Book, x: nat, k: nat, s: seq<byte>, h: nat, size: nat)
    requires Inv(g, v, b) && |s| == 32 && size < 0x1_0000_0000 && h < 0x1_0000_0000 && h != 0
    requires h in b.chains && h !in b.dirs && size <= 512 * |ChainSecs(g, b.chains[h])|
    requires Live(s) && !IsVolumeLabel(s) && s[0] != 0x2E && EntOk(g, b, x, k, EntOf(s))
    requires !EntOf(s).IsDir() && (EntOf(s).head == h || h !in b.owner)
    ensures var b' := Own(b, h, x, k);
      BookOk(g, b') && Reowned(b, b', x, k) && SlotOk(g, b', x, k, Resized(s, h, size))
  {
    hide Resized;
    hide Inv, ChainSecs;
    OwnBookOk(g, v, b, x, k, h);
  }

  lemma OwnBookOk(g: Geo, v: Vol, b: Book, x: nat, k: nat, h: nat)
    requires Inv(g, v, b) && h in b.chains && h !in b.dirs
    ensures BookOk(g, b) && BookOk(g, Own(b, h, x, k))
  {
  }

  lemma BookedChainIs(g: Geo, v: Vol, b: Book, h: nat)
    requires Inv(g, v, b) && h in b.chains
    ensures ChainOf(g, v.fat, h) == b.chains[h] && h >= 2
  {
    hide FatOk, DirOk;
    ChainOfChain(g, v.fat, b.chains[h]);
  }

  lemma StillHeld(area: seq<Sector>, area': seq<Sector>, secs: seq<nat>, bytes: seq<byte>, size: nat)
    requires InArea(area, secs) && AgreeOn(area, area', secs) && size <= |bytes| <= 512 * |secs|
    requires Raw(area, secs)[..|bytes|] == bytes
    ensures InArea(area', secs) && size <= |Raw(area', secs)| && Raw(area', secs)[..size] == bytes[..size]
  {
    var r, r' := Raw(area, secs), Raw(area', secs);
    forall p | 0 <= p < |bytes| ensures r'[p] == bytes[p] {
      assert r[..|bytes|][p] == r[p];
    }
  }

  /** The rewritten entry's file is the start of what the chain holds. */
  lemma UpdatedBytes(g: Geo, v: Vol, b: Book, x: nat, k: nat, s: seq<byte>, h: nat, bytes: seq<byte>, e: Ent)
    requires Inv(g, v, b) && x in b.dirs && |s| == 32 && h in b.chains && h !in b.dirs
    requires InArea(v.area, Secs(g, b, x)) && k < 16 * |Secs(g, b, x)|
    requires HoldsBytes(g, v, b.chains[h], bytes) && e.head == h && e.size <= |bytes|
    ensures var v' := v.(area := PutSlot(v.area, Secs(g, b, x), k, s));
      FileBytes(g, v', e) == bytes[..e.size] && ChainLength(g, v', e) == |b.chains[h]|
  {
    hide Inv, SlotSet, PutSlot, FatOk, ChainsOk, BookOk, IsChain, ChainSecs, AgreeOn;
    InvParts(g, v, b);
    InvRoot(g, v, b);
    var v' := v.(area := PutSlot(v.area, Secs(g, b, x), k, s));
    PutSlotEffect(g, v, b, x, k, s);
    HeadsAreClusters(g, v.fat, b.chains, h);
    BookedChainIs(g, v, b, h);
    assert AgreeOn(v.area, v'.area, Secs(g, b, h));
    StillHeld(v.area, v'.area, ChainSecs(g, b.chains[h]), bytes, e.size);
  }

  lemma {:induction false} SameResolve(g: Geo, v: Vol, b: Book, v': Vol, x: nat, path: seq<Name>)
    requires Inv(g, v, b) && x in b.dirs && Same(g, v, v', b.dirs, {})
    ensures ResolveFrom(g, v', x, path) == ResolveFrom(g, v, x, path)
    decreases |path|
  {
    if path != [] {
      var k := EntryFacts(g, v, b, x, path[0]);
      if |path| > 1 && Entry(g, v, x, path[0]).Some? && Entry(g, v, x, path[0]).value.IsDir() {
        SameResolve(g, v, b, v', Entry(g, v, x, path[0]).value.head, path[1..]);
      }
    }
  }

  /** The new size and first cluster may be recorded for the file that the path denotes. */
  ghost predicate MayRecord(g: Geo, v: Vol, b: Book, path: seq<Name>, head: nat, size: nat) {
    && Inv(g, v, b) && path != [] && Resolve(g, v, path).Found? && !Resolve(g, v, path).ent.IsDir()
    && size < 0x1_0000_0000
    && head in b.chains && head !in b.dirs && size <= 512 * |ChainSecs(g, b.chains[head])|
    && (Resolve(g, v, path).ent.head == head || head !in b.owner)
  }

  /** Finds the file's slot in its directory and writes the new size and first cluster into it. */
  method PatchSize(fs: Volume, path: seq<Name>, x: nat, head: nat, size: nat) returns (ghost k: nat)
    requires Sound(fs) && MayRecord(fs.g, fs.vol, fs.book, path, head, size) && ParentOf(fs.g, fs.vol, path) == Dir(x)
    requires x in fs.book.dirs
    modifies fs.Arrays(), fs`vol, fs`hist, fs`cacheNext
    ensures fs.Valid()
    ensures Updated(fs.g, old(fs.vol), old(fs.book), fs.vol, Own(old(fs.book), head, x, k), x, k, Leaf(path), head,
      size,
                    Resolve(fs.g, old(fs.vol), path).ent.attr)
    ensures fs.hist == old(fs.hist) + [fs.vol]
  {
    hide Volume.Valid, Inv, Updated, FoundAt;
    ghost var v, b := fs.vol, fs.book;
    var lba, i;
    lba, i, k := FindSlot(fs, path, x);
    UpdateIsSound(fs.g, v, b, path, x, k, head, size);
    WriteSlot(fs, lba, i, Resized(BufSlot(fs.buf[..], i), head, size), DirSecs(fs.g, v.fat, x), k);
  }

  /** Finds the file's entry again and gives it its new size and first cluster. */
  method RewriteEntry(fs: Volume, path: seq<Name>, head: nat, size: nat) returns (ghost x: nat, ghost k: nat)
    requires Sound(fs) && MayRecord(fs.g, fs.vol, fs.book, path, head, size)
    modifies fs.Arrays(), fs`vol, fs`hist, fs`cacheNext, fs`book
    ensures fs.Valid() && ParentOf(fs.g, old(fs.vol), path) == Dir(x)
    ensures Updated(fs.g, old(fs.vol), old(fs.book), fs.vol, fs.book, x, k, Leaf(path), head, size,
                    Resolve(fs.g, old(fs.vol), path).ent.attr)
    ensures fs.hist == old(fs.hist) + [fs.vol]
  {
    hide Volume.Valid, Inv, FatOk, Walkable, Updated;
    ghost var v, b := fs.vol, fs.book;
    PathFacts(fs.g, v, b, path);
    var parent := ResolveParent(fs, path);
    x := parent.id;
    k := PatchSize(fs, path, parent.id, head, size);
    fs.SetBook(Own(b, head, x, k));
  }

  /** The volume after slot `k` of directory `x` was given the size and the first cluster. */
  ghost predicate Updated(g: Geo, v: Vol, b: Book, v': Vol, b': Book, x: nat, k: nat, n: Name, head: nat, size: nat,
                          attr: byte)
  {
    && Inv(g, v', b') && b' == Own(b, head, x, k) && Same(g, v, v', b.dirs, {(x, n)})
    && Entry(g, v', x, n) == Some(Ent(attr, head, size)) && SlotUpdated(g, v, v', x, n, Ent(attr, head, size))
    && v'.fat == v.fat
    && forall bytes: seq<byte> :: head in b.chains && HoldsBytes(g, v, b.chains[head], bytes) && size <= |bytes| ==>
         FileBytes(g, v', Ent(attr, head, size)) == bytes[..size]
  }

  lemma InvFacts(g: Geo, v: Vol, b: Book)
    requires Inv(g, v, b)
    ensures g.Ok() && Shape(g, v) && ChainsOk(g, v.fat, b.chains)
    ensures forall x :: x in b.dirs ==> IsRoot16(g, x) || x in b.chains
  {
  }

  lemma UpdateIsSound(g: Geo, v: Vol, b: Book, path: seq<Name>, x: nat, k: nat, head: nat, size: nat)
    requires Inv(g, v, b) && path != [] && Resolve(g, v, path).Found? && ParentOf(g, v, path) == Dir(x) && x in b.dirs
    requires !Resolve(g, v, path).ent.IsDir() && size < 0x1_0000_0000
    requires head in b.chains && head !in b.dirs && size <= 512 * |ChainSecs(g, b.chains[head])|
    requires Resolve(g, v, path).ent.head == head || head !in b.owner
    requires InArea(v.area, DirSecs(g, v.fat, x)) && FoundAt(v.area, DirSecs(g, v.fat, x), Leaf(path), k)
    requires Resolve(g, v, path).ent == EntOf(Slot(v.area, DirSecs(g, v.fat, x), k))
    ensures head < 0x1_0000_0000
    ensures var secs := DirSecs(g, v.fat, x);
      var v' := v.(area := PutSlot(v.area, secs, k, Resized(Slot(v.area, secs, k), head, size)));
      && Inv(g, v', Own(b, head, x, k))
      && Updated(g, v, b, v', Own(b, head, x, k), x, k, Leaf(path), head, size, Resolve(g, v, path).ent.attr)
  {
    hide Inv, Resized, HoldsBytes, ChainSecs, BookOk, EntOk, SlotUpdated;
    InvFacts(g, v, b);
    DirSecsAreBooked(g, v, b, x);
    UpdateEntry(g, v, b, x, k, Leaf(path), head, size);
    var s, attr := Slot(v.area, Secs(g, b, x), k), Resolve(g, v, path).ent.attr;
    var v' := v.(area := PutSlot(v.area, Secs(g, b, x), k, Resized(s, head, size)));
    forall bytes: seq<byte> | HoldsBytes(g, v, b.chains[head], bytes) && size <= |bytes|
      ensures FileBytes(g, v', Ent(attr, head, size)) == bytes[..size]
    {
      UpdatedBytes(g, v, b, x, k, Resized(s, head, size), head, bytes, Ent(attr, head, size));
    }
  }

  // ----- fat_append -----

  /** The size that is recorded: a 32-bit sum. */
  function NewSize(e: Ent, data: seq<byte>): (s: nat)
    ensures s <= e.size + |data| && s < 0x1_0000_0000
  {
    (e.size + |data|) % 0x1_0000_0000
  }

  /** The file's entry and bytes after a successful append behind `base`. */
  ghost predicate AppendResult(g: Geo, v: Vol, v': Vol, x: nat, n: Name, e: Ent, base: seq<byte>, data: seq<byte>)
    requires Shape(g, v) && Shape(g, v')
  {
    && |base| == Landing(g, v, e)
    && (e.head != 0 ==> |base| <= |RawOf(g, v, e.head)| && base == RawOf(g, v, e.head)[..|base|])
    && Entry(g, v', x, n).Some?
    && var e' := Entry(g, v', x, n).value;
    && e'.attr == e.attr && e'.size == NewSize(e, data) && e'.size <= |base + data|
    && (e.head != 0 ==> e'.head == e.head) && NamedIn(DirBytes(g, v', x), n, e')
    && FileBytes(g, v', e') == (base + data)[..e'.size]
    && var m := ChainLength(g, v', e');
    && |base + data| <= 512 * Times(m, g.spc)
    && (m == ChainLength(g, v, e) || (m > 0 && |base + data| > 512 * Times(m - 1, g.spc)))
  }

  /** What fat_append promises about an existing file `n` of directory `x`, and exactly when it succeeds. */
  ghost predicate AppendedTo(g: Geo, v: Vol, b: Book, v': Vol, b': Book, x: nat, n: Name, e: Ent, data: seq<byte>,
                             st: Status)
    requires g.Ok() && Shape(g, v) && Shape(g, v')
  {
    && (st == Ok || st == NoSpace) && b'.dirs == b.dirs
    && (st == Ok <==> Landing(g, v, e) + |data| <= 512 * Times(ChainLength(g, v, e) + FreeClusters(g, v.fat), g.spc))
    && (st == NoSpace ==> Same(g, v, v', b.dirs, {}))
    && (st == Ok ==> Same(g, v, v', b.dirs, {(x, n)}) && exists base :: AppendResult(g, v, v', x, n, e, base, data))
  }

  ghost predicate AppendSpecOf(g: Geo, v: Vol, b: Book, v': Vol, b': Book, path: seq<Name>, data: seq<byte>, st: Status)
    requires g.Ok() && Shape(g, v) && Shape(g, v') && path != []
  {
    if data == [] then st == Ok && v' == v && b' == b
    else match Resolve(g, v, path)
      case Miss(NotFound) => CreateSpec(g, v, b, v', b', path, data, st)
      case Miss(err) => st == err && v' == v && b' == b
      case Found(e) =>
        if e.IsDir() then st == NotFile && v' == v && b' == b
        else
          && ParentOf(g, v, path).Dir?
          && AppendedTo(g, v, b, v', b', ParentOf(g, v, path).id, Leaf(path), e, data, st)
  }

  /** Where the append of `data` to the entry `e` begins: the chain from `start`, ending in `last`. */
  ghost predicate Begun(g: Geo, J: Job, v: Vol, b: Book, e: Ent, data: seq<byte>, start: nat, ch: seq<Cluster>)
    requires g.Ok() && Shape(g, v)
  {
    && J.v0 == v && J.b == b && J.data == data && J.h == start && ch != []
    && |J.base| == Landing(g, v, e) && J.total == ChainLength(g, v, e) + FreeClusters(g, v.fat)
    && (if e.head != 0 then
          && start == e.head && |ch| == ChainLength(g, v, e)
          && |J.base| <= |RawOf(g, v, e.head)| && J.base == RawOf(g, v, e.head)[..|J.base|]
        else start !in b.owner && |ch| == 1 && e.size == 0)
  }

  lemma StartTable(g: Geo, v: Vol, b: Book, x: nat, n: Name)
    requires Inv(g, v, b) && x in b.dirs && Entry(g, v, x, n).Some? && !Entry(g, v, x, n).value.IsDir()
    ensures FatOk(g, v.fat) && (Entry(g, v, x, n).value.head < 2 ==> Entry(g, v, x, n).value.head == 0)
  {
    StartFacts(g, v, b, x, n);
  }

  lemma FreshBegun(g: Geo, v: Vol, b: Book, x: nat, n: Name, data: seq<byte>, c: nat) returns (J: Job)
    requires Inv(g, v, b) && x in b.dirs && Entry(g, v, x, n).Some? && !Entry(g, v, x, n).value.IsDir()
    requires Entry(g, v, x, n).value.head < 2 && g.InData(c) && v.fat[c] == 0
    ensures Begun(g, J, v, b, Entry(g, v, x, n).value, data, c, [c])
    ensures var v1 := v.(fat := v.fat[c := g.Eoc()]);
      Appending(g, J, v1, [c], 0) && Keeps(g, v, v1, b.dirs, {})
  {
    StartFacts(g, v, b, x, n);
    J := AppendFresh(g, v, b, c, data);
  }

  lemma BehindBegun(g: Geo, v: Vol, b: Book, x: nat, n: Name, data: seq<byte>) returns (J: Job)
    requires Inv(g, v, b) && x in b.dirs && Entry(g, v, x, n).Some? && !Entry(g, v, x, n).value.IsDir()
    requires Entry(g, v, x, n).value.head >= 2
    ensures var e := Entry(g, v, x, n).value;
      var ch := ChainOf(g, v.fat, e.head);
      && ch != [] && g.InData(e.head) && |ch| < g.clusters + 2 && g.InData(Tail(ch))
      && Begun(g, J, v, b, e, data, e.head, ch) && Appending(g, J, v, ch, 0)
  {
    StartFacts(g, v, b, x, n);
    J := AppendBegin(g, v, b, x, n, data);
    AppendingFacts(g, J, v, b.chains[Entry(g, v, x, n).value.head], 0);
  }

  /** A file without a chain is given a first cluster; 0 when there is none. */
  method StartFresh(fs: Volume, e: Ent, data: seq<byte>, ghost x: nat, ghost n: Name)
    returns (c: nat, ghost J: Job, ghost ch: seq<Cluster>)
    requires Sound(fs) && x in fs.book.dirs && Entry(fs.g, fs.vol, x, n) == Some(e) && !e.IsDir() && e.head < 2
    modifies fs.Arrays(), fs`vol, fs`hist, fs`cacheNext
    ensures fs.Valid()
    ensures c == 0 ==> fs.vol == old(fs.vol) && fs.hist == old(fs.hist) && e.head == 0
    ensures c == 0 ==> FreeClusters(fs.g, old(fs.vol).fat) == 0
    ensures c != 0 ==> Stands(fs, J, ch, 0, old(fs.hist)) && Begun(fs.g, J, old(fs.vol), old(fs.book), e, data, c, ch)
    ensures c != 0 ==> c >= 2 && ch == [c]
  {
    hide Volume.Valid, Inv, FatOk, Appending, Begun, Entry, Keeps, FreeClusters, KeptSince;
    ghost var v, b, h := fs.vol, fs.book, fs.hist;
    StartTable(fs.g, v, b, x, n);
    J, ch := Job(v, b, 0, [], data, 0), [];
    c := AllocCluster(fs);
    if c != 0 {
      J := FreshBegun(fs.g, v, b, x, n, data, c);
      ch := [c];
      BegunJob(fs.g, J, v, b, e, data, c, ch);
      KeptFresh(fs.g, v, b.dirs, h, fs.vol);
    }
  }

  lemma KeptFresh(g: Geo, v: Vol, dirs: set<nat>, h: seq<Vol>, x: Vol)
    requires Keeps(g, v, x, dirs, {})
    ensures h <= h + [x, x] && KeptSince(g, v, dirs, {}, h + [x, x], |h|)
  {
  }

  lemma BegunJob(g: Geo, J: Job, v: Vol, b: Book, e: Ent, data: seq<byte>, start: nat, ch: seq<Cluster>)
    requires g.Ok() && Shape(g, v) && Begun(g, J, v, b, e, data, start, ch)
    ensures J.v0 == v && J.b == b && J.data == data && J.h == start && ch != []
    ensures |J.base| == Landing(g, v, e) && J.total == ChainLength(g, v, e) + FreeClusters(g, v.fat)
  {
  }

  /** The chain of a file that has one is followed to its last cluster. */
  method StartBehind(fs: Volume, e: Ent, data: seq<byte>, ghost x: nat, ghost n: Name)
    returns (last: nat, ghost J: Job, ghost ch: seq<Cluster>)
    requires Sound(fs) && x in fs.book.dirs && Entry(fs.g, fs.vol, x, n) == Some(e) && !e.IsDir() && e.head >= 2
    modifies fs.Scratch(), fs`cacheNext
    ensures Stands(fs, J, ch, 0, fs.hist) && Begun(fs.g, J, fs.vol, fs.book, e, data, e.head, ch)
    ensures last >= 2 && ch != [] && last == Tail(ch)
  {
    hide Volume.Valid, Inv, FatOk, Appending, Begun, Entry, Keeps, ChainOf;
    ghost var v, b := fs.vol, fs.book;
    StartTable(fs.g, v, b, x, n);
    J := BehindBegun(fs.g, v, b, x, n, data);
    ch := ChainOf(fs.g, v.fat, e.head);
    var r := LastOfChain(fs, e.head);
    last := r.value;
  }

  /** Finds the file's last cluster, or takes a first one when it has none; 0 when that fails. */
  method StartAppend(fs: Volume, e: Ent, data: seq<byte>, ghost x: nat, ghost n: Name)
    returns (start: nat, last: nat, ghost J: Job, ghost ch: seq<Cluster>)
    requires Sound(fs) && x in fs.book.dirs && Entry(fs.g, fs.vol, x, n) == Some(e) && !e.IsDir()
    modifies fs.Arrays(), fs`vol, fs`hist, fs`cacheNext
    ensures fs.Valid()
    ensures start == 0 ==> fs.vol == old(fs.vol) && fs.hist == old(fs.hist) && e.head == 0
    ensures start == 0 ==> FreeClusters(fs.g, old(fs.vol).fat) == 0
    ensures start != 0 ==>
      Stands(fs, J, ch, 0, old(fs.hist)) && Begun(fs.g, J, old(fs.vol), old(fs.book), e, data, start, ch)
    ensures start != 0 ==> last >= 2 && ch != [] && last == Tail(ch)
  {
    hide Volume.Valid, Inv, Appending, Begun, KeptSince, Entry;
    if e.head < 2 {
      start, J, ch := StartFresh(fs, e, data, x, n);
      last := start;
    } else {
      start := e.head;
      last, J, ch := StartBehind(fs, e, data, x, n);
    }
  }

  lemma StartFacts(g: Geo, v: Vol, b: Book, x: nat, n: Name)
    requires Inv(g, v, b) && x in b.dirs && Entry(g, v, x, n).Some? && !Entry(g, v, x, n).value.IsDir()
    ensures FatOk(g, v.fat) && g.Ok() && Shape(g, v)
    ensures var e := Entry(g, v, x, n).value;
      if e.head < 2 then e.head == 0 && e.size == 0 && ChainLength(g, v, e) == 0
        && Landing(g, v, e) == 512 * Times(1, g.spc)
      else e.head in b.chains && g.InData(e.head) && ChainOf(g, v.fat, e.head) == b.chains[e.head]
           && |b.chains[e.head]| < g.clusters + 2 && |b.chains[e.head]| == ChainLength(g, v, e)
  {
    var k := EntryFacts(g, v, b, x, n);
    var e := Entry(g, v, x, n).value;
    if e.head != 0 {
      InvHead(g, v, b, e.head);
      ChainOfChain(g, v.fat, b.chains[e.head]);
    }
    assert Times(1, g.spc) == Times(0, g.spc) + g.spc;
  }

  lemma AppendSamePath(g: Geo, J: Job, v1: Vol, ch: seq<Cluster>, w: nat, v: Vol, b: Book, path: seq<Name>)
    requires Inv(g, v, b) && path != [] && J.v0 == v && J.b == b && Appending(g, J, v1, ch, w)
    ensures Shape(g, v1) && Inv(g, v1, WithChain(b, J.h, ch)) && Same(g, v, v1, b.dirs, {})
    ensures Resolve(g, v1, path) == Resolve(g, v, path) && ParentOf(g, v1, path) == ParentOf(g, v, path)
  {
    InvRoot(g, v, b);
    hide Inv, UsersBelow, HoldsBytes, Same;
    SameResolve(g, v, b, v1, g.rootCluster, path);
    if |path| > 1 {
      SameResolve(g, v, b, v1, g.rootCluster, path[..|path| - 1]);
    }
  }

  /** The data is behind the old bytes; only the entry has not been told. */
  lemma ReadyToRecord(g: Geo, J: Job, v1: Vol, ch: seq<Cluster>, v: Vol, b: Book, path: seq<Name>, e: Ent,
                      start: nat, ch0: seq<Cluster>)
    requires Inv(g, v, b) && path != [] && Resolve(g, v, path) == Found(e) && !e.IsDir()
    requires Begun(g, J, v, b, e, J.data, start, ch0) && Appending(g, J, v1, ch, |J.data|)
    ensures MayRecord(g, v1, WithChain(b, start, ch), path, start, NewSize(e, J.data))
    ensures HoldsBytes(g, v1, ch, J.base + J.data) && |J.base + J.data| <= 512 * Times(|ch|, g.spc)
    ensures e.size <= |J.base|
  {
    hide Inv, FatOk, HoldsBytes, ChainSecs, IsChain, Same, Keeps, UsersBelow, FreeClusters, Landing, RawOf, ChainLength;
    AppendSamePath(g, J, v1, ch, |J.data|, v, b, path);
    FileLanding(g, v, b, path, e);
    AppendingFacts(g, J, v1, ch, |J.data|);
    ChainSecsLen(g, ch);
    assert J.data[..|J.data|] == J.data;
  }

  lemma FileLanding(g: Geo, v: Vol, b: Book, path: seq<Name>, e: Ent)
    requires Inv(g, v, b) && path != [] && Resolve(g, v, path) == Found(e) && !e.IsDir()
    ensures e.size <= Landing(g, v, e)
  {
    PathFacts(g, v, b, path);
    SizeBeforeLanding(g, v, b, ParentOf(g, v, path).id, Leaf(path));
  }

  lemma AppendLengths(g: Geo, J: Job, v: Vol, b: Book, e: Ent, start: nat, ch0: seq<Cluster>, v1: Vol,
                      ch: seq<Cluster>, w: nat)
    requires g.Ok() && Shape(g, v) && Begun(g, J, v, b, e, J.data, start, ch0) && Appending(g, J, v1, ch, w)
    ensures |ch| <= J.total == ChainLength(g, v, e) + FreeClusters(g, v.fat) && |J.base| == Landing(g, v, e)
    ensures Times(|ch|, g.spc) <= Times(J.total, g.spc)
    ensures w == |J.data| > 0 ==> ch == ch0 ==> |ch| == ChainLength(g, v, e)
    ensures |J.base| + w <= 512 * Times(|ch|, g.spc)
  {
    hide Inv, Same, UsersBelow, FreeClusters, FatOk, Keeps;
    AppendingFacts(g, J, v1, ch, w);
    TimesMonotone(|ch|, J.total, g.spc);
    if ch == ch0 && e.head == 0 {
      NoChainNoLength(g, v, e);
      assert Times(1, g.spc) == Times(0, g.spc) + g.spc;
    }
  }

  /** What a recorded entry reads back as. */
  lemma Recorded(g: Geo, v: Vol, b: Book, v': Vol, b': Book, x: nat, k: nat, n: Name, head: nat, size: nat, attr: byte,
                 bytes: seq<byte>)
    requires Updated(g, v, b, v', b', x, k, n, head, size, attr)
    requires head in b.chains && HoldsBytes(g, v, b.chains[head], bytes) && size <= |bytes|
    ensures Shape(g, v') && Entry(g, v', x, n) == Some(Ent(attr, head, size)) && b'.dirs == b.dirs
    ensures FileBytes(g, v', Ent(attr, head, size)) == bytes[..size]
    ensures ChainLength(g, v', Ent(attr, head, size)) == |b.chains[head]|
    ensures Same(g, v, v', b.dirs, {(x, n)})
  {
    hide Inv;
    ChainLengthIsBooked(g, v', b', Ent(attr, head, size));
  }

  lemma AppendedBytes(g: Geo, J: Job, v: Vol, b: Book, path: seq<Name>, e: Ent, start: nat, ch0: seq<Cluster>,
                      v1: Vol, ch: seq<Cluster>, v2: Vol, b2: Book, x: nat, k: nat)
    requires Inv(g, v, b) && path != [] && Resolve(g, v, path) == Found(e) && !e.IsDir() && J.data != []
    requires Begun(g, J, v, b, e, J.data, start, ch0) && Appending(g, J, v1, ch, |J.data|)
    requires ch == ch0 || (ch != [] && |J.base| + |J.data| > 512 * Times(|ch| - 1, g.spc))
    requires Updated(g, v1, WithChain(b, start, ch), v2, b2, x, k, Leaf(path), start,
                     NewSize(e, J.data), e.attr)
    ensures Shape(g, v2) && AppendResult(g, v, v2, x, Leaf(path), e, J.base, J.data)
    ensures Same(g, v1, v2, b.dirs, {(x, Leaf(path))}) && b2.dirs == b.dirs
  {
    hide Inv, Appending, HoldsBytes, Same, Landing, RawOf, ChainLength, ChainSecs, Resolve, Updated, MayRecord,
      FileBytes, NamedIn, DirBytes;
    InvRoot(g, v, b);
    ReadyToRecord(g, J, v1, ch, v, b, path, e, start, ch0);
    AppendLengths(g, J, v, b, e, start, ch0, v1, ch, |J.data|);
    Recorded(g, v1, WithChain(b, start, ch), v2, b2, x, k, Leaf(path), start, NewSize(e, J.data), e.attr,
             J.base + J.data);
    EntryOnCard(g, v2, x, Leaf(path), Ent(e.attr, start, NewSize(e, J.data)));
  }

  /** A completed append keeps its promise. */
  lemma AppendDone(g: Geo, J: Job, v: Vol, b: Book, path: seq<Name>, e: Ent, start: nat, ch0: seq<Cluster>,
                   v1: Vol, ch: seq<Cluster>, v2: Vol, b2: Book, x: nat, k: nat)
    requires Inv(g, v, b) && path != [] && Resolve(g, v, path) == Found(e) && !e.IsDir() && J.data != []
    requires Begun(g, J, v, b, e, J.data, start, ch0) && Appending(g, J, v1, ch, |J.data|)
    requires ch == ch0 || (ch != [] && |J.base| + |J.data| > 512 * Times(|ch| - 1, g.spc))
    requires Updated(g, v1, WithChain(b, start, ch), v2, b2, x, k, Leaf(path), start,
                     NewSize(e, J.data), e.attr)
    ensures Shape(g, v2) && AppendedTo(g, v, b, v2, b2, x, Leaf(path), e, J.data, Ok)
    ensures Keeps(g, v1, v2, b.dirs, {(x, Leaf(path))})
  {
    hide Inv, Appending, Same, Landing, ChainLength, Resolve, Updated, AppendResult;
    AppendedBytes(g, J, v, b, path, e, start, ch0, v1, ch, v2, b2, x, k);
    InvRoot(g, v, b);
    AppendSamePath(g, J, v1, ch, |J.data|, v, b, path);
    AppendLengths(g, J, v, b, e, start, ch0, v1, ch, |J.data|);
    SameTrans(g, v, v1, v2, b.dirs, {}, {(x, Leaf(path))});
    NothingMore({(x, Leaf(path))});
    SameKeeps(g, v1, v2, b.dirs, {(x, Leaf(path))}, {(x, Leaf(path))});
  }

  /** An append that ran out of clusters keeps its promise. */
  lemma AppendFull(g: Geo, J: Job, v: Vol, b: Book, path: seq<Name>, e: Ent, start: nat, ch0: seq<Cluster>,
                   v1: Vol, ch: seq<Cluster>, w: nat, x: nat)
    requires Inv(g, v, b) && path != [] && Resolve(g, v, path) == Found(e) && !e.IsDir()
    requires Begun(g, J, v, b, e, J.data, start, ch0) && Appending(g, J, v1, ch, w)
    requires |J.base| + |J.data| > 512 * Times(J.total, g.spc)
    ensures Shape(g, v1) && Inv(g, v1, WithChain(b, start, ch))
    ensures AppendedTo(g, v, b, v1, WithChain(b, start, ch), x, Leaf(path), e, J.data, NoSpace)
  {
    hide Inv, Appending, Same, Landing, ChainLength, Resolve, AppendResult;
    InvRoot(g, v, b);
    AppendSamePath(g, J, v1, ch, w, v, b, path);
    AppendLengths(g, J, v, b, e, start, ch0, v1, ch, w);
  }

  lemma AppendNothing(g: Geo, v: Vol, b: Book, path: seq<Name>, e: Ent, x: nat, data: seq<byte>)
    requires Inv(g, v, b) && path != [] && e.head == 0 && FreeClusters(g, v.fat) == 0
    ensures AppendedTo(g, v, b, v, b, x, Leaf(path), e, data, NoSpace)
  {
    NoChainNoLength(g, v, e);
    SameSelf(g, v, b);
    hide Inv, Same;
  }

  /** A call that appended to the file, or failed to; sound at its end, and nothing else lost on the way. */
  ghost predicate FileAppended(g: Geo, v: Vol, b: Book, h: seq<Vol>, v': Vol, b': Book, h': seq<Vol>,
                               x: nat, n: Name, e: Ent, data: seq<byte>, st: Status)
  {
    && g.Ok() && Shape(g, v) && Shape(g, v')
    && AppendedTo(g, v, b, v', b', x, n, e, data, st)
    && SoundStep(g, v, b, h, v', b', h', {(x, n)})
  }

  /** The data phase is over: all of it is behind the old bytes. */
  ghost predicate DataBehind(g: Geo, J: Job, v1: Vol, ch: seq<Cluster>, v: Vol, b: Book, path: seq<Name>, e: Ent,
                             start: nat, ch0: seq<Cluster>, x: nat)
  {
    && Inv(g, v, b) && path != [] && Resolve(g, v, path) == Found(e) && !e.IsDir() && ParentOf(g, v, path) == Dir(x)
    && J.data != [] && Begun(g, J, v, b, e, J.data, start, ch0) && Appending(g, J, v1, ch, |J.data|)
    && (ch == ch0 || (ch != [] && |J.base| + |J.data| > 512 * Times(|ch| - 1, g.spc)))
  }

  lemma RecordBegin(g: Geo, J: Job, v1: Vol, ch: seq<Cluster>, v: Vol, b: Book, path: seq<Name>, e: Ent,
                    start: nat, ch0: seq<Cluster>, x: nat)
    requires DataBehind(g, J, v1, ch, v, b, path, e, start, ch0, x)
    ensures Inv(g, v1, WithChain(b, start, ch))
    ensures MayRecord(g, v1, WithChain(b, start, ch), path, start, NewSize(e, J.data))
    ensures Resolve(g, v1, path) == Found(e) && ParentOf(g, v1, path) == Dir(x)
  {
    hide Inv, MayRecord, Appending;
    ReadyToRecord(g, J, v1, ch, v, b, path, e, start, ch0);
    AppendSamePath(g, J, v1, ch, |J.data|, v, b, path);
  }

  lemma RecordEnd(g: Geo, J: Job, v1: Vol, ch: seq<Cluster>, v: Vol, b: Book, path: seq<Name>, e: Ent,
                  start: nat, ch0: seq<Cluster>, x: nat, h: seq<Vol>, h1: seq<Vol>, v2: Vol, b2: Book, k: nat)
    requires DataBehind(g, J, v1, ch, v, b, path, e, start, ch0, x)
    requires h <= h1 && KeptSince(g, v, b.dirs, {}, h1, |h|)
    requires Updated(g, v1, WithChain(b, start, ch), v2, b2, x, k, Leaf(path), start,
                     NewSize(e, J.data), e.attr)
    ensures FileAppended(g, v, b, h, v2, b2, h1 + [v2], x, Leaf(path), e, J.data, Ok)
  {
    hide Inv, Appending, Begun, Updated, AppendedTo, Keeps, Same;
    InvRoot(g, v, b);
    AppendDone(g, J, v, b, path, e, start, ch0, v1, ch, v2, b2, x, k);
    BehindKeeps(g, J, v1, ch, v, b, e, start, ch0);
    RecordKept(g, v, v1, v2, b.dirs, h, h1, {(x, Leaf(path))});
    UpdatedInv(g, v1, WithChain(b, start, ch), v2, b2, x, k, Leaf(path), start, NewSize(e, J.data), e.attr);
  }

  lemma BehindKeeps(g: Geo, J: Job, v1: Vol, ch: seq<Cluster>, v: Vol, b: Book, e: Ent, start: nat, ch0: seq<Cluster>)
    requires g.Ok() && Shape(g, v) && Begun(g, J, v, b, e, J.data, start, ch0) && Appending(g, J, v1, ch, |J.data|)
    ensures Keeps(g, v, v1, b.dirs, {})
  {
    AppendingFacts(g, J, v1, ch, |J.data|);
  }

  /** Records the appended bytes in the file's entry: only now does anyone see them. */
  method RecordAppend(fs: Volume, path: seq<Name>, e: Ent, start: nat, data: seq<byte>, ghost J: Job, ghost v: Vol,
                      ghost b: Book, ghost h: seq<Vol>, ghost ch0: seq<Cluster>, ghost ch: seq<Cluster>, ghost x: nat)
    requires fs.Valid() && DataBehind(fs.g, J, fs.vol, ch, v, b, path, e, start, ch0, x) && J.data == data
    requires h <= fs.hist && KeptSince(fs.g, v, b.dirs, {}, fs.hist, |h|)
    modifies fs.Arrays(), fs`vol, fs`hist, fs`cacheNext, fs`book
    ensures fs.Valid() && FileAppended(fs.g, v, b, h, fs.vol, fs.book, fs.hist, x, Leaf(path), e, data, Ok)
  {
    hide Volume.Valid, Inv, DataBehind, Updated, FileAppended, MayRecord, KeptSince, NewSize;
    ghost var v1, h1 := fs.vol, fs.hist;
    RecordBegin(fs.g, J, v1, ch, v, b, path, e, start, ch0, x);
    fs.SetBook(WithChain(b, start, ch));
    ghost var y, k;
    y, k := RewriteEntry(fs, path, start, NewSize(e, data));
    RecordEnd(fs.g, J, v1, ch, v, b, path, e, start, ch0, x, h, h1, fs.vol, fs.book, k);
  }

  lemma UpdatedInv(g: Geo, v: Vol, b: Book, v': Vol, b': Book, x: nat, k: nat, n: Name, head: nat, size: nat,
                   attr: byte)
    requires Updated(g, v, b, v', b', x, k, n, head, size, attr)
    ensures Inv(g, v', b')
  {
  }

  lemma RecordKept(g: Geo, v: Vol, v1: Vol, v2: Vol, dirs: set<nat>, h: seq<Vol>, h1: seq<Vol>, ex: set<(nat, Name)>)
    requires h <= h1 && KeptSince(g, v, dirs, {}, h1, |h|) && Keeps(g, v, v1, dirs, {}) && Keeps(g, v1, v2, dirs, ex)
    ensures h <= h1 + [v2] && KeptSince(g, v, dirs, ex, h1 + [v2], |h|)
  {
    KeepsMore(g, v, v1, dirs, ex);
    KeepsTrans(g, v, v1, v2, dirs, ex);
    forall k | |h| <= k < |h1| + 1 ensures Keeps(g, v, (h1 + [v2])[k], dirs, ex) {
      if k < |h1| { KeepsMore(g, v, h1[k], dirs, ex); }
    }
  }

  lemma KeepsMore(g: Geo, v: Vol, v': Vol, dirs: set<nat>, ex: set<(nat, Name)>)
    requires Keeps(g, v, v', dirs, {})
    ensures Keeps(g, v, v', dirs, ex)
  {
  }

  lemma NoFirstCluster(g: Geo, v: Vol, b: Book, h: seq<Vol>, path: seq<Name>, e: Ent, x: nat, data: seq<byte>)
    requires Inv(g, v, b) && path != [] && e.head == 0 && FreeClusters(g, v.fat) == 0
    ensures FileAppended(g, v, b, h, v, b, h, x, Leaf(path), e, data, NoSpace)
  {
    AppendNothing(g, v, b, path, e, x, data);
    KeptNone(g, v, b.dirs, {(x, Leaf(path))}, h);
  }

  lemma RanOut(g: Geo, J: Job, v: Vol, b: Book, h: seq<Vol>, path: seq<Name>, e: Ent, start: nat, ch0: seq<Cluster>,
               v1: Vol, h1: seq<Vol>, ch: seq<Cluster>, w: nat, x: nat)
    requires Inv(g, v, b) && path != [] && Resolve(g, v, path) == Found(e) && !e.IsDir()
    requires Begun(g, J, v, b, e, J.data, start, ch0) && Appending(g, J, v1, ch, w)
    requires |J.base| + |J.data| > 512 * Times(J.total, g.spc)
    requires h <= h1 && KeptSince(g, v, b.dirs, {}, h1, |h|)
    ensures FileAppended(g, v, b, h, v1, WithChain(b, start, ch), h1, x, Leaf(path), e, J.data, NoSpace)
  {
    hide Inv, Appending, Begun, AppendedTo, Landing, KeptSince;
    InvRoot(g, v, b);
    AppendFull(g, J, v, b, path, e, start, ch0, v1, ch, w, x);
    KeptMore(g, v, b.dirs, {(x, Leaf(path))}, h1, |h|);
  }

  /** Appends to the file that the path denotes. */
  method AppendToFile(fs: Volume, path: seq<Name>, e: Ent, data: seq<byte>, ghost x: nat) returns (st: Status)
    requires Sound(fs) && path != [] && 0 < |data| < 0x1_0000_0000
    requires Resolve(fs.g, fs.vol, path) == Found(e) && !e.IsDir() && ParentOf(fs.g, fs.vol, path) == Dir(x)
    modifies fs.Arrays(), fs`vol, fs`hist, fs`cacheNext, fs`book
    ensures fs.Valid()
    ensures FileAppended(fs.g, old(fs.vol), old(fs.book), old(fs.hist), fs.vol, fs.book, fs.hist, x, Leaf(path), e,
      data, st)
  {
    hide Volume.Valid, Inv, FatOk, Appending, Begun, FileAppended, Landing, KeptSince, Entry, FreeClusters;
    ghost var v, b, h := fs.vol, fs.book, fs.hist;
    AppendParts(fs.g, v, b, path, e);
    var start, last;
    ghost var J, ch0;
    start, last, J, ch0 := StartAppend(fs, e, data, x, Leaf(path));
    if start == 0 {
      NoFirstCluster(fs.g, v, b, h, path, e, x, data);
      st := NoSpace;
    } else {
      BegunJob(fs.g, J, v, b, e, data, start, ch0);
      LandingParts(fs.g, v, b, path, e, J, data, start, ch0);
      st := AppendBehind(fs, path, e, data, start, last, J, ch0, v, b, h, x);
    }
  }

  /** The data phase and the recording. */
  method AppendBehind(fs: Volume, path: seq<Name>, e: Ent, data: seq<byte>, start: nat, last: Cluster, ghost J: Job,
                      ghost ch0: seq<Cluster>, ghost v: Vol, ghost b: Book, ghost h: seq<Vol>, ghost x: nat)
    returns (st: Status)
    requires Inv(fs.g, v, b) && path != [] && data != []
    requires Resolve(fs.g, v, path) == Found(e) && !e.IsDir() && ParentOf(fs.g, v, path) == Dir(x)
    requires Stands(fs, J, ch0, 0, h) && Begun(fs.g, J, v, b, e, data, start, ch0)
    requires J.data == data && J.v0 == v && J.b == b && ch0 != [] && last == Tail(ch0)
    requires var pos := e.size % (512 * fs.g.spc);
      && pos < 512 * fs.g.spc
      && |J.base| == if pos > 0 then 512 * Times(|ch0| - 1, fs.g.spc) + pos else 512 * Times(|ch0|, fs.g.spc)
    modifies fs.Arrays(), fs`vol, fs`hist, fs`cacheNext, fs`book
    ensures fs.Valid()
    ensures FileAppended(fs.g, v, b, h, fs.vol, fs.book, fs.hist, x, Leaf(path), e, data, st)
  {
    hide Volume.Valid, Inv, Appending, Begun, FileAppended, Landing, KeptSince, Entry;
    var done;
    ghost var ch, w;
    done, ch, w := AppendData(fs, last, e.size % (512 * fs.g.spc), data, J, ch0, h);
    if done {
      RecordAppend(fs, path, e, start, data, J, v, b, h, ch0, ch, x);
      st := Ok;
    } else {
      RanOut(fs.g, J, v, b, h, path, e, start, ch0, fs.vol, fs.hist, ch, w, x);
      fs.SetBook(WithChain(b, start, ch));
      st := NoSpace;
    }
  }

  lemma KeptNone(g: Geo, v: Vol, dirs: set<nat>, ex: set<(nat, Name)>, h: seq<Vol>)
    ensures KeptSince(g, v, dirs, ex, h, |h|)
  {
  }

  lemma KeptMore(g: Geo, v: Vol, dirs: set<nat>, ex: set<(nat, Name)>, h: seq<Vol>, from: nat)
    requires KeptSince(g, v, dirs, {}, h, from)
    ensures KeptSince(g, v, dirs, ex, h, from)
  {
    forall k | from <= k < |h| ensures Keeps(g, v, h[k], dirs, ex) {
      KeepsMore(g, v, h[k], dirs, ex);
    }
  }

  lemma AppendParts(g: Geo, v: Vol, b: Book, path: seq<Name>, e: Ent)
    requires Inv(g, v, b) && path != [] && Resolve(g, v, path) == Found(e) && !e.IsDir()
    ensures ParentOf(g, v, path).Dir? && ParentOf(g, v, path).id in b.dirs
    ensures Entry(g, v, ParentOf(g, v, path).id, Leaf(path)) == Some(e) && g.Ok()
  {
    PathFacts(g, v, b, path);
  }

  /** The landing point as a position in the last cluster. */
  lemma LandingParts(g: Geo, v: Vol, b: Book, path: seq<Name>, e: Ent, J: Job, data: seq<byte>, start: nat,
                     ch0: seq<Cluster>)
    requires Inv(g, v, b) && path != [] && Resolve(g, v, path) == Found(e) && !e.IsDir()
    requires Begun(g, J, v, b, e, data, start, ch0)
    ensures var pos := e.size % (512 * g.spc);
      && pos < 512 * g.spc && ch0 != []
      && |J.base| == if pos > 0 then 512 * Times(|ch0| - 1, g.spc) + pos else 512 * Times(|ch0|, g.spc)
  {
    AppendParts(g, v, b, path, e);
    var x, n := ParentOf(g, v, path).id, Leaf(path);
    StartFacts(g, v, b, x, n);
    if e.head != 0 {
      LandingCovers(g, v, b, x, n);
    } else {
      ZeroRemainder(512 * g.spc);
      assert Times(1, g.spc) == Times(0, g.spc) + g.spc;
    }
  }

  lemma ZeroRemainder(a: nat)
    requires a > 0
    ensures 0 % a == 0
  {
  }

  /** The one name that an append may change the meaning of. */
  ghost function AppendEx(g: Geo, v: Vol, path: seq<Name>): set<(nat, Name)>
    requires Shape(g, v) && path != []
  {
    if ParentOf(g, v, path).Dir? then {(ParentOf(g, v, path).id, Leaf(path))} else {}
  }

  /** What fat_append promises for a path, whatever the volume holds. */
  ghost predicate AppendSpec(g: Geo, v: Vol, b: Book, h: seq<Vol>, v': Vol, b': Book, h': seq<Vol>,
                             path: seq<Name>, data: seq<byte>, st: Status)
  {
    && g.Ok() && Shape(g, v) && Shape(g, v') && path != []
    && AppendSpecOf(g, v, b, v', b', path, data, st)
    && SoundStep(g, v, b, h, v', b', h', AppendEx(g, v, path))
  }

  lemma AppendRefused(g: Geo, v: Vol, b: Book, h: seq<Vol>, path: seq<Name>, data: seq<byte>, st: Status)
    requires Inv(g, v, b) && path != []
    requires if data == [] then st == Ok else match Resolve(g, v, path)
             case Miss(err) => err != NotFound && st == err
             case Found(e) => e.IsDir() && st == NotFile
    ensures AppendSpec(g, v, b, h, v, b, h, path, data, st)
  {
    KeptNone(g, v, b.dirs, AppendEx(g, v, path), h);
    hide Inv;
  }

  lemma AppendCreated(g: Geo, v: Vol, b: Book, h: seq<Vol>, v': Vol, b': Book, h': seq<Vol>,
                      path: seq<Name>, data: seq<byte>, st: Status)
    requires g.Ok() && Shape(g, v) && Shape(g, v') && path != [] && data != [] && Resolve(g, v, path) == Miss(NotFound)
    requires CreateSpec(g, v, b, v', b', path, data, st) && SoundStep(g, v, b, h, v', b', h', {})
    ensures AppendSpec(g, v, b, h, v', b', h', path, data, st)
  {
    hide Inv, CreateSpec;
    KeptMore(g, v, b.dirs, AppendEx(g, v, path), h', |h|);
  }

  lemma AppendedFile(g: Geo, v: Vol, b: Book, h: seq<Vol>, v': Vol, b': Book, h': seq<Vol>,
                     path: seq<Name>, e: Ent, data: seq<byte>, st: Status)
    requires path != [] && data != [] && Shape(g, v) && Resolve(g, v, path) == Found(e) && !e.IsDir()
    requires ParentOf(g, v, path).Dir?
    requires FileAppended(g, v, b, h, v', b', h', ParentOf(g, v, path).id, Leaf(path), e, data, st)
    ensures AppendSpec(g, v, b, h, v', b', h', path, data, st)
  {
    hide Inv, AppendedTo;
  }

  method FatAppend(fs: Volume, path: seq<Name>, data: seq<byte>) returns (st: Status)
    requires Sound(fs) && path != [] && |data| < 0x1_0000_0000
    modifies fs.Arrays(), fs`vol, fs`hist, fs`cacheNext, fs`book
    ensures fs.Valid()
    ensures AppendSpec(fs.g, old(fs.vol), old(fs.book), old(fs.hist), fs.vol, fs.book, fs.hist, path, data, st)
  {
    hide Volume.Valid, Inv, FatOk, Walkable, CreateSpec, AppendSpec, SoundStep, FileAppended;
    ghost var v, b, h := fs.vol, fs.book, fs.hist;
    PathFacts(fs.g, v, b, path);
    if data == [] {
      AppendRefused(fs.g, v, b, h, path, data, Ok);
      return Ok;
    }
    var r := ResolvePath(fs, path);
    if r == Miss(NotFound) {
      st := FatCreate.FatCreate(fs, path, data);
      AppendCreated(fs.g, v, b, h, fs.vol, fs.book, fs.hist, path, data, st);
    } else if r.Miss? || r.ent.IsDir() {
      st := if r.Miss? then r.err else NotFile;
      AppendRefused(fs.g, v, b, h, path, data, st);
    } else {
      AppendParts(fs.g, v, b, path, r.ent);
      st := AppendToFile(fs, path, r.ent, data, ParentOf(fs.g, v, path).id);
      AppendedFile(fs.g, v, b, h, fs.vol, fs.book, fs.hist, path, r.ent, data, st);
    }
  }

  // ----- when an append is a concatenation -----

  /** New bytes land right behind the old ones exactly when the file is not empty and its chain is tight. */
  lemma LandsBehind(g: Geo, v: Vol, b: Book, x: nat, n: Name)
    requires Inv(g, v, b) && x in b.dirs && Entry(g, v, x, n).Some? && !Entry(g, v, x, n).value.IsDir()
    ensures var e := Entry(g, v, x, n).value; Landing(g, v, e) == e.size <==> e.size > 0 && Tight(g, v, e)
  {
    var e, m := Entry(g, v, x, n).value, ChainLength(g, v, Entry(g, v, x, n).value);
    StartFacts(g, v, b, x, n);
    if e.head >= 2 {
      LandingCovers(g, v, b, x, n);
      hide Inv;
      SizeParts(g.spc, e.size, m);
      assert Times(m, g.spc) == Times(m - 1, g.spc) + g.spc;
    }
  }

  /** Then the part before the landing point is just what the file reads as. */
  lemma LandingBase(g: Geo, v: Vol, b: Book, x: nat, n: Name, base: seq<byte>)
    requires Inv(g, v, b) && x in b.dirs && Entry(g, v, x, n).Some? && !Entry(g, v, x, n).value.IsDir()
    requires var e := Entry(g, v, x, n).value;
      && e.size > 0 && Tight(g, v, e) && |base| == Landing(g, v, e)
      && (e.head != 0 ==> |base| <= |RawOf(g, v, e.head)| && base == RawOf(g, v, e.head)[..|base|])
    ensures base == FileBytes(g, v, Entry(g, v, x, n).value) && |base| == Entry(g, v, x, n).value.size
  {
    hide Inv, Landing, Tight;
    LandsBehind(g, v, b, x, n);
    StartFacts(g, v, b, x, n);
  }

  /** Appending to a non-empty file with a tight chain is concatenation, and the chain stays tight. */
  lemma AppendConcatenates(g: Geo, v: Vol, b: Book, v': Vol, x: nat, n: Name, base: seq<byte>, data: seq<byte>)
    requires Inv(g, v, b) && x in b.dirs && Entry(g, v, x, n).Some? && !Entry(g, v, x, n).value.IsDir() && Shape(g, v')
    requires AppendResult(g, v, v', x, n, Entry(g, v, x, n).value, base, data)
    requires var e := Entry(g, v, x, n).value;
      e.size > 0 && Tight(g, v, e) && e.size + |data| < 0x1_0000_0000
    ensures var e, e' := Entry(g, v, x, n).value, Entry(g, v', x, n).value;
      FileBytes(g, v', e') == FileBytes(g, v, e) + data && e'.size == e.size + |data| && Tight(g, v', e')
  {
    var e := Entry(g, v, x, n).value;
    ResultStart(g, v, v', x, n, e, base, data);
    hide Inv, Landing, FileBytes, RawOf, Entry, AppendResult, Tight;
    LandingBase(g, v, b, x, n, base);
    ConcatenatedIs(g, v, v', x, n, e, base, data);
  }

  lemma ResultStart(g: Geo, v: Vol, v': Vol, x: nat, n: Name, e: Ent, base: seq<byte>, data: seq<byte>)
    requires Shape(g, v) && Shape(g, v') && AppendResult(g, v, v', x, n, e, base, data)
    ensures Entry(g, v', x, n).Some? && |base| == Landing(g, v, e)
    ensures e.head != 0 ==> |base| <= |RawOf(g, v, e.head)| && base == RawOf(g, v, e.head)[..|base|]
  {
  }

  lemma ConcatenatedIs(g: Geo, v: Vol, v': Vol, x: nat, n: Name, e: Ent, base: seq<byte>, data: seq<byte>)
    requires Shape(g, v) && Shape(g, v') && AppendResult(g, v, v', x, n, e, base, data)
    requires |base| == e.size && e.size + |data| < 0x1_0000_0000 && Tight(g, v, e)
    ensures Entry(g, v', x, n).Some?
    ensures var e' := Entry(g, v', x, n).value;
      FileBytes(g, v', e') == base + data && e'.size == e.size + |data| && Tight(g, v', e')
  {
    hide Landing, FileBytes, RawOf, ChainLength, Entry, NewSize, NamedIn, DirBytes, Times;
    Unwrapped(e, data);
    WholeSlice(base + data);
    StaysTight(g.spc, ChainLength(g, v, e), e.size, |data|);
  }

  lemma WholeSlice(s: seq<byte>)
    ensures s[..|s|] == s
  {
  }

  lemma Unwrapped(e: Ent, data: seq<byte>)
    requires e.size + |data| < 0x1_0000_0000
    ensures NewSize(e, data) == e.size + |data|
  {
  }

  lemma StaysTight(spc: nat, m: nat, size: nat, more: nat)
    requires m > 0 ==> size > 512 * Times(m - 1, spc)
    ensures m > 0 ==> size + more > 512 * Times(m - 1, spc)
  {
  }

  /** The bytes that end up where the data belongs happen to be the data. */
  ghost predicate Echoes(base: seq<byte>, size: nat, data: seq<byte>) {
    size < |base| && forall i :: 0 <= i < |data| ==> data[i] == (base + data)[size + i]
  }

  lemma EchoIs(base: seq<byte>, size: nat, data: seq<byte>)
    requires size < |base|
    ensures (base + data)[..size + |data|] == base[..size] + data <==> Echoes(base, size, data)
  {
    var got, want := (base + data)[..size + |data|], base[..size] + data;
    assert forall i :: 0 <= i < |data| ==> want[size + i] == data[i] && got[size + i] == (base + data)[size + i];
    assert forall i :: 0 <= i < size ==> want[i] == got[i];
    if Echoes(base, size, data) {
      forall j | size <= j < |got| ensures got[j] == want[j] {
        assert data[j - size] == (base + data)[size + (j - size)];
      }
    }
  }

  /** The part before the landing point begins with the file's bytes. */
  lemma BaseBegins(g: Geo, v: Vol, b: Book, x: nat, n: Name, base: seq<byte>)
    requires Inv(g, v, b) && x in b.dirs && Entry(g, v, x, n).Some? && !Entry(g, v, x, n).value.IsDir()
    requires var e := Entry(g, v, x, n).value;
      && |base| == Landing(g, v, e)
      && (e.head != 0 ==> |base| <= |RawOf(g, v, e.head)| && base == RawOf(g, v, e.head)[..|base|])
    ensures var e := Entry(g, v, x, n).value; e.size <= |base| && FileBytes(g, v, e) == base[..e.size]
  {
    hide Inv, Landing;
    StartFacts(g, v, b, x, n);
    SizeBeforeLanding(g, v, b, x, n);
    var e := Entry(g, v, x, n).value;
    if e.head == 0 {
      EmptyFile(g, v, e);
    }
  }

  /** Where the new bytes land behind a gap, the file reads as the old bytes, the gap's, and only then the data. */
  lemma GapRead(g: Geo, v: Vol, v': Vol, x: nat, n: Name, e: Ent, base: seq<byte>, data: seq<byte>)
    requires Shape(g, v) && Shape(g, v') && AppendResult(g, v, v', x, n, e, base, data)
    requires e.size < |base| && e.size + |data| < 0x1_0000_0000 && FileBytes(g, v, e) == base[..e.size]
    ensures Entry(g, v', x, n).Some?
    ensures FileBytes(g, v', Entry(g, v', x, n).value) == FileBytes(g, v, e) + data <==> Echoes(base, e.size, data)
  {
    hide Landing, FileBytes, RawOf, ChainLength, Entry, NewSize;
    Unwrapped(e, data);
    EchoIs(base, e.size, data);
  }

  /** A size that wraps around the recorded 32 bits cuts the file off. */
  lemma WrapCuts(g: Geo, v: Vol, v': Vol, x: nat, n: Name, e: Ent, base: seq<byte>, data: seq<byte>)
    requires Shape(g, v) && Shape(g, v') && AppendResult(g, v, v', x, n, e, base, data)
    requires e.size + |data| >= 0x1_0000_0000 && |FileBytes(g, v, e)| == e.size
    ensures Entry(g, v', x, n).Some?
    ensures FileBytes(g, v', Entry(g, v', x, n).value) != FileBytes(g, v, e) + data
  {
    hide Landing, FileBytes, RawOf, ChainLength, Entry, Times;
    assert |FileBytes(g, v', Entry(g, v', x, n).value)| == NewSize(e, data) < e.size + |data|;
  }

  /**
   Whatever an append leaves behind, it is the old bytes followed by the new ones exactly when the new size fits
   its 32 bits, and the file was not empty and its chain no longer than its size needs, or the bytes in the gap
   happen to repeat the data.
   */
  lemma AppendConcatenatesExactlyWhen(g: Geo, v: Vol, b: Book, v': Vol, x: nat, n: Name, base: seq<byte>,
                                      data: seq<byte>)
    requires Inv(g, v, b) && x in b.dirs && Entry(g, v, x, n).Some? && !Entry(g, v, x, n).value.IsDir() && Shape(g, v')
    requires AppendResult(g, v, v', x, n, Entry(g, v, x, n).value, base, data)
    ensures Entry(g, v', x, n).Some?
    ensures var e, e' := Entry(g, v, x, n).value, Entry(g, v', x, n).value;
      && (FileBytes(g, v', e') == FileBytes(g, v, e) + data
          <==> e.size + |data| < 0x1_0000_0000 && ((e.size > 0 && Tight(g, v, e)) || Echoes(base, e.size, data)))
      && (e.size < |base| <==> !(e.size > 0 && Tight(g, v, e)))
  {
    hide Inv, Landing, FileBytes, RawOf, Entry, AppendResult, Tight, Echoes;
    InvRoot(g, v, b);
    var e := Entry(g, v, x, n).value;
    ResultStart(g, v, v', x, n, e, base, data);
    LandsBehind(g, v, b, x, n);
    BaseBegins(g, v, b, x, n, base);
    if e.size + |data| >= 0x1_0000_0000 {
      WrapCuts(g, v, v', x, n, e, base, data);
    } else if e.size > 0 && Tight(g, v, e) {
      AppendConcatenates(g, v, b, v', x, n, base, data);
    } else {
      GapRead(g, v, v', x, n, e, base, data);
    }
  }

  /**
   Taken over all data of one length, whatever fat_append leaves behind for each: every append is a
   concatenation exactly when the file was not empty, its chain no longer than its size needs, and the new
   size fits its 32 bits.
   */
  lemma AppendConcatenatesOnlyThen(g: Geo, v: Vol, b: Book, x: nat, n: Name, base: seq<byte>, k: nat,
                                   after: seq<byte> -> Vol)
    requires Inv(g, v, b) && x in b.dirs && Entry(g, v, x, n).Some? && !Entry(g, v, x, n).value.IsDir()
    requires k > 0
    requires forall data: seq<byte> :: |data| == k ==>
      Shape(g, after(data)) && AppendResult(g, v, after(data), x, n, Entry(g, v, x, n).value, base, data)
    ensures var e := Entry(g, v, x, n).value;
      (forall data: seq<byte> :: |data| == k ==>
         && Entry(g, after(data), x, n).Some?
         && FileBytes(g, after(data), Entry(g, after(data), x, n).value) == FileBytes(g, v, e) + data)
      <==> e.size > 0 && Tight(g, v, e) && e.size + k < 0x1_0000_0000
  {
    var e := Entry(g, v, x, n).value;
    hide Inv, FileBytes, Entry, AppendResult, Tight, Echoes, Landing;
    forall data: seq<byte> | |data| == k
      ensures Entry(g, after(data), x, n).Some?
      ensures FileBytes(g, after(data), Entry(g, after(data), x, n).value) == FileBytes(g, v, e) + data
        <==> e.size + k < 0x1_0000_0000 && ((e.size > 0 && Tight(g, v, e)) || Echoes(base, e.size, data))
      ensures e.size < |base| <==> !(e.size > 0 && Tight(g, v, e))
    {
      AppendConcatenatesExactlyWhen(g, v, b, after(data), x, n, base, data);
    }
    var some: seq<byte> := seq(k, _ => if e.size < |base| && base[e.size] == 0 then 1 else 0);
    Unlike(base, e.size, some);
    assert |some| == k;
  }

  lemma Unlike(base: seq<byte>, size: nat, data: seq<byte>)
    requires data != [] && (size < |base| ==> data[0] != base[size])
    ensures !Echoes(base, size, data)
  {
    if size < |base| {
      assert (base + data)[size + 0] == base[size];
    }
  }

  lemma SizeBeforeLanding(g: Geo, v: Vol, b: Book, x: nat, n: Name)
    requires Inv(g, v, b) && x in b.dirs && Entry(g, v, x, n).Some? && !Entry(g, v, x, n).value.IsDir()
    ensures Entry(g, v, x, n).value.size <= Landing(g, v, Entry(g, v, x, n).value)
  {
    StartFacts(g, v, b, x, n);
    if Entry(g, v, x, n).value.head >= 2 { LandingCovers(g, v, b, x, n); }
  }

  /** Appending one byte to an empty file: it is recorded, and reads back as whatever the first cluster held. */
  lemma EmptyFileAppend(g: Geo, v: Vol, b: Book, v': Vol, x: nat, n: Name, base: seq<byte>)
    requires Inv(g, v, b) && x in b.dirs && Entry(g, v, x, n) == Some(Ent(0x20, 0, 0)) && Shape(g, v')
    requires AppendResult(g, v, v', x, n, Ent(0x20, 0, 0), base, [1]) && base != [] && base[0] == 0
    ensures FileBytes(g, v', Entry(g, v', x, n).value) == [0]
  {
    hide Inv, Landing, FileBytes, RawOf, ChainLength, Entry, NamedIn, DirBytes, Times;
    OneByte(base);
    Unwrapped(Ent(0x20, 0, 0), [1]);
  }

  lemma OneByte(base: seq<byte>)
    requires base != [] && base[0] == 0
    ensures (base + [1])[..1] == [0]
  {
  }
}
