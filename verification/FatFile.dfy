/** fat_open and fat_read: sequential reading of a file in any chunks. */
module FatFile {
  import opened Basics
  import opened FatLayout
  import opened FatView
  import opened FatInv
  import opened FatVolume
  import opened FatDir
  import opened FatOnCard
  import CInts

  // ----- offsets -----

  /** The number of the cluster, counted within a chain, that its sector `j` belongs to. */
  function ClusterAt(spc: nat, j: nat): nat
    requires spc > 0
  {
    if j < spc then 0 else 1 + ClusterAt(spc, j - spc)
  }

  lemma {:induction false} ClusterAtBounds(spc: nat, j: nat)
    requires spc > 0
    ensures Times(ClusterAt(spc, j), spc) <= j < Times(ClusterAt(spc, j), spc) + spc
  {
    if j >= spc {
      ClusterAtBounds(spc, j - spc);
    }
  }

  lemma ClusterAtIs(spc: nat, j: nat, k: nat)
    requires spc > 0 && Times(k, spc) <= j < Times(k, spc) + spc
    ensures ClusterAt(spc, j) == k
  {
    var q := ClusterAt(spc, j);
    ClusterAtBounds(spc, j);
    if q < k { TimesStep(q, k, spc); }
    if k < q { TimesStep(k, q, spc); }
  }

  /** The driver's byte arithmetic: position in the cluster, sector in the cluster, position in the sector. */
  lemma OffsetParts(spc: nat, off: nat, cb: nat)
    requires spc > 0 && cb == spc * 512
    ensures cb > 0
    ensures var j, k := off / 512, ClusterAt(spc, off / 512);
      && off % cb == 512 * (j - Times(k, spc)) + off % 512
      && off % cb / 512 == j - Times(k, spc) < spc
      && off % cb % 512 == off % 512
  {
    var j, k := off / 512, ClusterAt(spc, off / 512);
    ClusterAtBounds(spc, j);
    TimesIsProduct(k, spc);
    var s := j - Times(k, spc);
    assert off == 512 * j + off % 512;
    assert 512 * (k * spc) == cb * k;
    CInts.MulGap(512, s, spc);
    CInts.DivIs(off, cb, k, 512 * s + off % 512);
  }

  /** Reading on within a sector: the cluster changes exactly when its last byte was read. */
  lemma OffsetAdvance(spc: nat, off: nat, take: nat, cb: nat)
    requires spc > 0 && 0 < take <= 512 - off % 512 && cb == spc * 512
    ensures cb > 0
    ensures ClusterAt(spc, (off + take) / 512) == ClusterAt(spc, off / 512) + if (off + take) % cb == 0 then 1 else 0
  {
    var j, k := off / 512, ClusterAt(spc, off / 512);
    ClusterAtBounds(spc, j);
    OffsetParts(spc, off + take, cb);
    var j' := (off + take) / 512;
    if j' >= Times(k, spc) + spc {
      assert j' == Times(k + 1, spc);
      ClusterAtIs(spc, j', k + 1);
    } else {
      ClusterAtIs(spc, j', k);
    }
  }

  // ----- chains as a reader meets them -----

  /** A walk's clusters are linked one to the next, and what follows the last is no data cluster. */
  lemma {:induction false} FollowLinks(g: Geo, fat: seq<nat>, c: nat, fuel: nat, i: nat)
    requires |fat| >= g.clusters + 2 && i < |Follow(g, fat, c, fuel)|
    ensures var ch := Follow(g, fat, c, fuel);
      && ch[0] == c && ch[i] < |fat|
      && (i + 1 < |ch| ==> fat[ch[i]] == ch[i + 1])
      && (i + 1 == |ch| < fuel ==> !g.InData(fat[ch[i]]))
    decreases fuel
  {
    var rest := Follow(g, fat, fat[c], fuel - 1);
    if i > 0 {
      FollowLinks(g, fat, fat[c], fuel - 1, i - 1);
    } else if rest != [] {
      FollowLinks(g, fat, fat[c], fuel - 1, 0);
    }
  }

  // ----- open files -----

  class OpenFile {
    var first: nat
    var size: nat
    var cur: nat        // the cluster that the byte at `off` lies in
    var off: nat

    /** The reader stands at `off`: `cur` is the element of the chain that `off` lies in. */
    ghost predicate At(g: Geo, v: Vol)
      reads this
    {
      && g.Ok() && Shape(g, v) && FatOk(g, v.fat)
      && Standing(g, v.fat, first, cur, off)
    }

    constructor ()
      ensures first == 0 && size == 0 && cur == 0 && off == 0
    {
      first, size, cur, off := 0, 0, 0, 0;
    }
  }

  /** `cur` is where a reader of the chain from `first` is after `off` bytes. */
  ghost predicate Standing(g: Geo, fat: seq<nat>, first: nat, cur: nat, off: nat)
    requires g.Ok()
  {
    var ch, k := ChainOf(g, fat, first), ClusterAt(g.spc, off / 512);
    && |ch| < g.clusters + 2 && off <= 512 * |ChainSecs(g, ch)| && k <= |ch|
    && (first < 2 || g.IsEoc(first) || g.InData(first))
    && (if k < |ch| then cur == ch[k] else cur < 2 || g.IsEoc(cur))
  }

  lemma ReadPosition(g: Geo, v: Vol, first: nat, off: nat, k: nat)
    requires g.Ok() && Shape(g, v) && k == ClusterAt(g.spc, off / 512) < |ChainOf(g, v.fat, first)|
    ensures InArea(v.area, SecsFrom(g, v.fat, first))
    ensures var secs, s := SecsFrom(g, v.fat, first), off / 512 - Times(k, g.spc);
      && 0 <= s < g.spc && off / 512 < |secs| && secs[off / 512] == g.SecOf(ChainOf(g, v.fat, first)[k], 0) + s
  {
    var ch := ChainOf(g, v.fat, first);
    ClusterAtBounds(g.spc, off / 512);
    ChainSecsAt(g, ch, k, off / 512 - Times(k, g.spc));
    ChainSecsInArea(g, ch, v.area);
  }

  /** A slice of a file's bytes that lies within one sector. */
  lemma RawSlice(area: seq<Sector>, secs: seq<nat>, off: nat, take: nat)
    requires InArea(area, secs) && off / 512 < |secs| && off % 512 + take <= 512
    ensures off + take <= |Raw(area, secs)|
    ensures Raw(area, secs)[off..off + take] == area[secs[off / 512]][off % 512..off % 512 + take]
  {
    forall p | off <= p < off + take
      ensures Raw(area, secs)[p] == area[secs[off / 512]][off % 512 + (p - off)]
    {
      assert p / 512 == off / 512 && p % 512 == off % 512 + (p - off);
    }
  }

  /** After the last cluster of a chain there is nothing to read. */
  lemma PastEnd(g: Geo, ch: seq<Cluster>, off: nat)
    requires g.Ok() && ClusterAt(g.spc, off / 512) == |ch|
    ensures off >= 512 * |ChainSecs(g, ch)|
  {
    ClusterAtBounds(g.spc, off / 512);
    ChainSecsLen(g, ch);
  }

  /** The driver's state after `take` more bytes: it moves to the next link at a cluster's end. */
  lemma StandingAdvance(g: Geo, v: Vol, first: nat, cur: nat, off: nat, take: nat, cb: nat, next: nat)
    requires g.Ok() && Shape(g, v) && FatOk(g, v.fat) && Standing(g, v.fat, first, cur, off)
    requires g.InData(cur) && cur < |v.fat| && 0 < take <= 512 - off % 512 && cb == g.spc * 512
    ensures cb > 0 && ClusterAt(g.spc, off / 512) < |ChainOf(g, v.fat, first)|
    ensures next == (if (off + take) % cb == 0 then v.fat[cur] else cur) ==> Standing(g, v.fat, first, next, off + take)
  {
    var ch, k := ChainOf(g, v.fat, first), ClusterAt(g.spc, off / 512);
    OffsetAdvance(g.spc, off, take, cb);
    FollowLinks(g, v.fat, first, g.clusters + 2, k);
    ReadPosition(g, v, first, off, k);
    RawSlice(v.area, ChainSecs(g, ch), off, take);
  }

  // ----- fat_open -----

  /** Opens the file a path resolves to; directories cannot be opened. */
  method FatOpen(fs: Volume, path: seq<Name>, f: OpenFile) returns (st: Status)
    requires fs.Valid() && FatOk(fs.g, fs.vol.fat) && Walkable(fs.g, fs.vol, fs.g.rootCluster, path)
    requires var r := Resolve(fs.g, fs.vol, path);
      r.Found? && !r.ent.IsDir() ==> Readable(fs.g, fs.vol, r.ent)
    modifies f, fs.Scratch(), fs`cacheNext
    ensures fs.Valid()
    ensures match Resolve(fs.g, fs.vol, path)
            case Miss(err) => st == err
            case Found(e) =>
              && OnCard(fs.g, fs.vol, path, e)
              && if e.IsDir() then st == NotFile
                 else st == Ok && f.first == e.head && f.size == e.size && f.off == 0 && f.At(fs.g, fs.vol)
  {
    hide Volume.Valid, Walkable, FatOk, OnCard;
    var r := ResolvePath(fs, path);
    match r {
      case Miss(err) => st := err;
      case Found(e) =>
        ResolvedOnCard(fs.g, fs.vol, path, e);
        if e.IsDir() {
          st := NotFile;
        } else {
          StandingAtStart(fs.g, fs.vol, e);
          f.first, f.size, f.cur, f.off := e.head, e.size, e.head, 0;
          st := Ok;
        }
    }
  }

  lemma StandingAtStart(g: Geo, v: Vol, e: Ent)
    requires g.Ok() && Shape(g, v) && Readable(g, v, e)
    ensures Standing(g, v.fat, e.head, e.head, 0)
  {
    if g.InData(e.head) {
      assert ChainOf(g, v.fat, e.head)[0] == e.head;
    }
  }

  /** On a sound volume every file can be read, whole. */
  lemma SoundReadable(g: Geo, v: Vol, b: Book, x: nat, n: Name)
    requires Inv(g, v, b) && x in b.dirs && Entry(g, v, x, n).Some? && !Entry(g, v, x, n).value.IsDir()
    ensures var e := Entry(g, v, x, n).value; Readable(g, v, e) && |FileBytes(g, v, e)| == e.size
  {
    var k := EntryFacts(g, v, b, x, n);
    var e := Entry(g, v, x, n).value;
    if e.head == 0 {
      EmptyFile(g, v, e);
    } else {
      ChainOfChain(g, v.fat, b.chains[e.head]);
      FileBytesAgree(g, v, v, b.chains[e.head], b.chains[e.head], e);
    }
  }

  // ----- fat_read -----

  /** All bytes of the open file's chain. */
  ghost function RawOf(g: Geo, v: Vol, first: nat): seq<byte>
    requires Shape(g, v)
  {
    DirSecsInArea(g, v, first);
    Raw(v.area, SecsFrom(g, v.fat, first))
  }

  /** The bytes of the open file. */
  ghost function Content(g: Geo, v: Vol, f: OpenFile): seq<byte>
    reads f
    requires Shape(g, v)
  {
    FileBytes(g, v, Ent(0, f.first, f.size))
  }

  /** The bytes of the buffered sector that the reader takes next. */
  lemma ReadHere(g: Geo, v: Vol, first: nat, cur: nat, off: nat, take: nat, cb: nat)
    requires g.Ok() && Shape(g, v) && FatOk(g, v.fat) && Standing(g, v.fat, first, cur, off)
    requires g.InData(cur) && cb == g.spc * 512
    ensures cb > 0 && off % cb / 512 < g.spc && off % cb % 512 == off % 512
    ensures g.SecOf(cur, 0) + off % cb / 512 < |v.area|
    ensures off % 512 + take <= 512 ==>
      && off + take <= |RawOf(g, v, first)|
      && RawOf(g, v, first)[off..off + take]
         == v.area[g.SecOf(cur, 0) + off % cb / 512][off % 512..off % 512 + take]
  {
    OffsetParts(g.spc, off, cb);
    var k := ClusterAt(g.spc, off / 512);
    ReadPosition(g, v, first, off, k);
    var secs := SecsFrom(g, v.fat, first);
    assert secs[off / 512] == g.SecOf(cur, 0) + off % cb / 512;
    if off % 512 + take <= 512 {
      RawSlice(v.area, secs, off, take);
    }
  }

  /** One round of the read loop: the rest of the current sector, or `want` bytes of it. */
  method ReadSome(fs: Volume, f: OpenFile, want: nat) returns (chunk: seq<byte>)
    requires fs.Valid() && f.At(fs.g, fs.vol) && f !in fs.Repr() && want > 0 && fs.g.InData(f.cur)
    modifies f`cur, f`off, fs.Scratch(), fs`cacheNext
    ensures fs.Valid() && f.At(fs.g, fs.vol) && f.off == old(f.off) + |chunk| && 0 < |chunk| <= want
    ensures f.off <= |RawOf(fs.g, fs.vol, f.first)| && chunk == RawOf(fs.g, fs.vol, f.first)[old(f.off)..f.off]
  {
    hide Volume.Valid, RawOf, FatOk, Standing, ClusterAt, ChainOf, View;
    var cb := fs.g.spc * 512;
    ReadHere(fs.g, fs.vol, f.first, f.cur, f.off, 0, cb);
    var pos := f.off % cb;
    fs.ReadSector(fs.g.AreaLba() + fs.g.SecOf(f.cur, 0) + pos / 512);
    var take := want;
    if take > 512 - pos % 512 {
      take := 512 - pos % 512;
    }
    ReadHere(fs.g, fs.vol, f.first, f.cur, f.off, take, cb);
    chunk := fs.buf[pos % 512..pos % 512 + take];
    var next := f.cur;
    if (f.off + take) % cb == 0 {
      next := fs.FatEntry(f.cur);
    }
    StandingAdvance(fs.g, fs.vol, f.first, f.cur, f.off, take, cb, next);
    f.off := f.off + take;
    f.cur := next;
  }

  /** Reads at most `n` bytes from the current position. */
  method FatRead(fs: Volume, f: OpenFile, n: nat) returns (st: Status, data: seq<byte>)
    requires fs.Valid() && f.At(fs.g, fs.vol) && f !in fs.Repr()
    modifies f`cur, f`off, fs.Scratch(), fs`cacheNext
    ensures fs.Valid() && f.At(fs.g, fs.vol)
    ensures st == if old(f.off) >= f.size then Eof else Ok
    ensures st == Eof ==> data == [] && f.off == old(f.off)
    ensures st == Ok ==>
      var bytes := Content(fs.g, fs.vol, f);
      && old(f.off) <= |bytes| && f.off == old(f.off) + |data|
      && data == bytes[old(f.off)..if old(f.off) + n < |bytes| then old(f.off) + n else |bytes|]
  {
    hide Volume.Valid, FatOk, RawOf, FileBytes, Standing;
    data := [];
    if f.off >= f.size {
      return Eof, data;
    }
    ghost var start, raw := f.off, RawOf(fs.g, fs.vol, f.first);
    AtEnd(fs.g, fs.vol, f.first, f.cur, f.off);
    var want := n;
    if want > f.size - f.off {
      want := f.size - f.off;
    }
    while |data| < want && f.cur >= 2 && !fs.g.IsEoc(f.cur)
      invariant fs.Valid() && f.At(fs.g, fs.vol)
      invariant |data| <= want && f.off == start + |data| <= |raw| && data == raw[start..f.off]
      decreases want - |data|
    {
      StandingInData(fs.g, fs.vol, f.first, f.cur, f.off);
      var chunk := ReadSome(fs, f, want - |data|);
      data := data + chunk;
    }
    AtEnd(fs.g, fs.vol, f.first, f.cur, f.off);
    ReadSlice(fs.g, fs.vol, f.first, f.size, start, n, |data|);
    st := Ok;
  }

  /** What was taken from the chain's bytes is the right slice of the file's bytes. */
  lemma ReadSlice(g: Geo, v: Vol, first: nat, size: nat, start: nat, n: nat, got: nat)
    requires Shape(g, v) && start < size && start + got <= |RawOf(g, v, first)| && got <= n && start + got <= size
    requires got == n || start + got == size || start + got == |RawOf(g, v, first)|
    ensures var bytes := FileBytes(g, v, Ent(0, first, size));
      && start <= |bytes|
      && RawOf(g, v, first)[start..start + got] == bytes[start..if start + n < |bytes| then start + n else |bytes|]
  {
  }

  lemma StandingInData(g: Geo, v: Vol, first: nat, cur: nat, off: nat)
    requires g.Ok() && Shape(g, v) && Standing(g, v.fat, first, cur, off) && cur >= 2 && !g.IsEoc(cur)
    ensures g.InData(cur)
  {
  }

  lemma AtEnd(g: Geo, v: Vol, first: nat, cur: nat, off: nat)
    requires g.Ok() && Shape(g, v) && Standing(g, v.fat, first, cur, off)
    ensures off <= |RawOf(g, v, first)|
    ensures (cur < 2 || g.IsEoc(cur)) ==> off == |RawOf(g, v, first)|
  {
    var ch, k := ChainOf(g, v.fat, first), ClusterAt(g.spc, off / 512);
    if k == |ch| {
      PastEnd(g, ch, off);
    }
  }

  // ----- any chunking -----

  function Sum(sizes: seq<nat>): nat {
    if sizes == [] then 0 else sizes[0] + Sum(sizes[1..])
  }

  /** Reading a file from the start in pieces of any sizes yields its bytes, up to the sum of the sizes. */
  method ReadInPieces(fs: Volume, f: OpenFile, sizes: seq<nat>) returns (data: seq<byte>)
    requires fs.Valid() && f.At(fs.g, fs.vol) && f !in fs.Repr()
    requires f.off <= |Content(fs.g, fs.vol, f)|
    modifies f`cur, f`off, fs.Scratch(), fs`cacheNext
    ensures fs.Valid() && f.At(fs.g, fs.vol) && f.off == old(f.off) + |data|
    ensures var bytes := Content(fs.g, fs.vol, f);
      data == bytes[old(f.off)..if old(f.off) + Sum(sizes) < |bytes| then old(f.off) + Sum(sizes) else |bytes|]
    decreases |sizes|
  {
    hide Volume.Valid, FatOk, FileBytes, Sum;
    data := [];
    NoPieces();
    ContentBound(fs.g, fs.vol, f.first, f.size);
    if sizes != [] {
      SumFirst(sizes);
      ghost var bytes, o := Content(fs.g, fs.vol, f), f.off;
      var st, piece := FatRead(fs, f, sizes[0]);
      ghost var o' := f.off;
      var rest := ReadInPieces(fs, f, sizes[1..]);
      data := piece + rest;
      PieceJoins(bytes, o, sizes[0], o', Sum(sizes[1..]), piece, rest);
    }
  }

  lemma NoPieces()
    ensures Sum([]) == 0
  {
  }

  lemma SumFirst(sizes: seq<nat>)
    requires sizes != []
    ensures Sum(sizes) == sizes[0] + Sum(sizes[1..])
  {
  }

  function AtMost(n: nat, bound: nat): nat { if n < bound then n else bound }

  lemma PieceJoins(bytes: seq<byte>, o: nat, n: nat, o': nat, more: nat, piece: seq<byte>, rest: seq<byte>)
    requires o <= o' <= |bytes| && o' == AtMost(o + n, |bytes|)
    requires piece == bytes[o..o'] && rest == bytes[o'..AtMost(o' + more, |bytes|)]
    ensures piece + rest == bytes[o..AtMost(o + n + more, |bytes|)]
  {
  }

  lemma ContentBound(g: Geo, v: Vol, first: nat, size: nat)
    requires Shape(g, v)
    ensures |FileBytes(g, v, Ent(0, first, size))| <= size
  {
  }
}
