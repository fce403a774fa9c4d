/** fat_create: a file and all its data in one call. */
module FatCreate {
  import opened Basics
  import opened FatLayout
  import opened FatView
  import opened FatInv
  import opened FatSteps
  import opened FatVolume
  import opened FatAlloc
  import opened FatDir
  import opened FatGrow
  import opened FatData

  /** The last component of a path. */
  function Leaf(path: seq<Name>): Name
    requires path != []
  {
    path[|path| - 1]
  }

  /** Enough space for `len` bytes of data and for one more entry in directory `x`. */
  ghost predicate Fits(g: Geo, v: Vol, x: nat, len: nat)
    requires g.Ok() && Shape(g, v) && InArea(v.area, DirSecs(g, v.fat, x))
  {
    var free := FreeClusters(g, v.fat);
    && len <= 512 * Times(free, g.spc)
    && (HasRoom(g, v, x) || (!IsRoot16(g, x) && free > 0 && len <= 512 * Times(free - 1, g.spc)))
  }

  /** How many clusters `len` bytes of data take. */
  function Clusters(g: Geo, len: nat): nat
    requires g.spc > 0
  {
    if len == 0 then 0 else if len <= 512 * g.spc then 1 else 1 + Clusters(g, len - 512 * g.spc)
  }

  lemma {:induction false} ClustersEnough(g: Geo, len: nat, n: nat)
    requires g.spc > 0
    ensures Clusters(g, len) <= n <==> len <= 512 * Times(n, g.spc)
    decreases n
  {
    if n > 0 && len > 512 * g.spc {
      ClustersEnough(g, len - 512 * g.spc, n - 1);
    }
  }

  /** A call that leaves the volume sound, and at no moment lost an entry outside `ex`. */
  ghost predicate SoundStep(g: Geo, v: Vol, b: Book, h: seq<Vol>, v': Vol, b': Book, h': seq<Vol>,
                            ex: set<(nat, Name)>)
  {
    Inv(g, v', b') && h <= h' && KeptSince(g, v, b.dirs, ex, h', |h|)
  }

  /**
   What fat_create promises in the directory `x`: the file or no change of meaning, and exactly when it succeeds.
   Data that fits when the entry does not stays on the card, in clusters that nothing refers to any more.
   */
  ghost predicate CreatedIn(g: Geo, v: Vol, b: Book, v': Vol, b': Book, x: nat, n: Name, data: seq<byte>, st: Status)
    requires g.Ok() && Shape(g, v) && Shape(g, v') && InArea(v.area, DirSecs(g, v.fat, x))
  {
    && (st == Ok || st == NoSpace) && b'.dirs == b.dirs
    && (st == Ok <==> Fits(g, v, x, |data|))
    && (st == Ok ==>
          && Same(g, v, v', b.dirs, {(x, n)})
          && Entry(g, v', x, n).Some?
          && var e := Entry(g, v', x, n).value;
          && e.attr == 0x20 && e.size == |data| && FileBytes(g, v', e) == data && Tight(g, v', e)
          && FreshAt(g, v', x, n, e))
    && (st == NoSpace ==>
          && Same(g, v, v', b.dirs, {})
          && var k, free := Clusters(g, |data|), FreeClusters(g, v.fat);
          FreeClusters(g, v'.fat) == free - if k <= free then k else 0)
    && (|data| > 512 * Times(FreeClusters(g, v.fat), g.spc) ==> v'.fat == v.fat)
  }

  // ----- the steps of a successful create -----

  lemma RoomCarries(g: Geo, v: Vol, b: Book, v': Vol, x: nat)
    requires Inv(g, v, b) && Inv(g, v', b) && x in b.dirs && Untouched(g, b.chains, v, v')
    ensures InArea(v.area, DirSecs(g, v.fat, x)) && InArea(v'.area, DirSecs(g, v'.fat, x))
    ensures HasRoom(g, v', x) <==> HasRoom(g, v, x)
  {
    DirSecsAreBooked(g, v, b, x);
    DirSecsAreBooked(g, v', b, x);
    var secs := Secs(g, b, x);
    assert forall i :: 0 <= i < 16 * |secs| ==> Slot(v'.area, secs, i) == Slot(v.area, secs, i);
  }

  /** The new chain enters the book. */
  lemma AdoptData(g: Geo, v: Vol, b: Book, v': Vol, first: nat, ch: seq<Cluster>, data: seq<byte>)
    requires Inv(g, v, b) && DataWritten(g, v, b, v', first, ch, data)
    ensures Inv(g, v', b) && Same(g, v, v', b.dirs, {}) && Untouched(g, b.chains, v, v')
    ensures first !in b.chains && Inv(g, v', b.(chains := b.chains[first := ch]))
    ensures g.InData(first) && IsChain(g, v'.fat, ch) && |data| <= 512 * |ChainSecs(g, ch)|
    ensures FreeClusters(g, v'.fat) + |ch| == FreeClusters(g, v.fat)
    ensures FileBytes(g, v', Ent(0x20, first, |data|)) == data
  {
    var m :| |data| <= 512 * m && Building(g, v, b, v', ch, data, m);
    OffBook(g, v, b, v');
    forall i | 0 <= i < |ch| ensures Unowned(b, ch[i]) {
      ChainedUnowned(g, v, b, v'.fat, ch, ch[i]);
    }
    AdoptChain(g, v', b, ch);
    ChainOfChain(g, v'.fat, ch);
    DirSecsInArea(g, v', first);
    HoldsAll(v'.area, ChainSecs(g, ch), data, m);
  }

  lemma NewFileReady(g: Geo, v: Vol, b: Book, v': Vol, first: nat, ch: seq<Cluster>, data: seq<byte>)
    requires Inv(g, v, b) && DataWritten(g, v, b, v', first, ch, data) && |data| < 0x1_0000_0000
    ensures EntReady(g, b.(chains := b.chains[first := ch]), Ent(0x20, first, |data|))
  {
    hide Inv, Same, Untouched, FileBytes, IsChain, FreeClusters, DataWritten, Building, ChainSecs;
    FreshHead(g, v, b, first);
    AdoptData(g, v, b, v', first, ch, data);
  }

  lemma FreshHead(g: Geo, v: Vol, b: Book, first: nat)
    requires Inv(g, v, b)
    ensures first !in b.chains && g.InData(first) ==>
      first !in b.owner && first !in b.dirs && first != g.rootCluster && first != 0 && first < 0x1_0000_0000
  {
    hide DirOk, ChainsOk, FatOk;
  }

  lemma UntouchedKeeps(g: Geo, v: Vol, b: Book, v': Vol)
    requires Inv(g, v, b) && Untouched(g, b.chains, v, v')
    ensures Keeps(g, v, v', b.dirs, {})
  {
    CarriedKeeps(g, v, b, v', b.chains);
  }

  lemma KeptFromUntouched(g: Geo, v: Vol, b: Book, h: seq<Vol>, from: nat)
    requires Inv(g, v, b) && UntouchedSince(g, b.chains, v, h, from)
    ensures KeptSince(g, v, b.dirs, {}, h, from)
  {
    forall k | from <= k < |h| ensures Keeps(g, v, h[k], b.dirs, {}) {
      UntouchedKeeps(g, v, b, h[k]);
    }
  }

  lemma KeptTrans(g: Geo, v: Vol, v1: Vol, dirs: set<nat>, ex: set<(nat, Name)>, h: seq<Vol>, h': seq<Vol>, from: nat)
    requires KeptSince(g, v, dirs, ex, h, from) && Keeps(g, v, v1, dirs, ex) && from <= |h| && h <= h'
    requires KeptSince(g, v1, dirs, ex, h', |h|)
    ensures KeptSince(g, v, dirs, ex, h', from)
  {
    forall k | from <= k < |h'| ensures Keeps(g, v, h'[k], dirs, ex) {
      if k < |h| {
        assert h'[k] == h[k];
      } else {
        KeepsTrans(g, v, v1, h'[k], dirs, ex);
      }
    }
  }

  /** Data that needs a chain of `k` clusters fits in `free` of them exactly when k <= free. */
  lemma NeedsClusters(g: Geo, len: nat, k: nat, free: nat)
    requires len <= 512 * Times(k, g.spc) && (k > 0 ==> len > 512 * Times(k - 1, g.spc))
    ensures len <= 512 * Times(free, g.spc) <==> k <= free
  {
    if k <= free {
      TimesMonotone(k, free, g.spc);
    } else {
      TimesMonotone(free, k - 1, g.spc);
    }
  }

  /** The data is on the card, in `k` fresh clusters, and `e` is ready to be added for it. */
  ghost predicate Prepared(g: Geo, v: Vol, b: Book, v1: Vol, b1: Book, e: Ent, data: seq<byte>, k: nat, x: nat) {
    && Inv(g, v1, b1) && Inv(g, v1, b) && b1.dirs == b.dirs && Same(g, v, v1, b.dirs, {})
    && EntReady(g, b1, e) && e.attr == 0x20 && e.size == |data| && FileBytes(g, v1, e) == data
    && FreeClusters(g, v1.fat) + k == FreeClusters(g, v.fat)
    && |data| <= 512 * Times(k, g.spc) && (k > 0 ==> |data| > 512 * Times(k - 1, g.spc))
    && InArea(v.area, DirSecs(g, v.fat, x)) && InArea(v1.area, DirSecs(g, v1.fat, x))
    && (HasRoom(g, v1, x) <==> HasRoom(g, v, x))
    && (if k == 0 then e.head == 0 else e.head in b1.chains && |b1.chains[e.head]| == k)
  }

  lemma NoChainNoLength(g: Geo, v: Vol, e: Ent)
    requires e.head == 0
    ensures ChainLength(g, v, e) == 0
  {
  }

  /** No cluster too many: the new file's chain has exactly the `k` clusters that were taken for it. */
  lemma CreatedTight(g: Geo, v: Vol, b: Book, v1: Vol, b1: Book, v2: Vol, b2: Book,
                     x: nat, n: Name, e: Ent, data: seq<byte>, k: nat)
    requires x in b.dirs && Prepared(g, v, b, v1, b1, e, data, k, x) && Added(g, v1, b1, v2, b2, x, n, e)
    ensures Tight(g, v2, e)
  {
    hide Inv, Same, ChainLength, FreeClusters, HasRoom, InArea, DirSecs;
    if k > 0 {
      ChainLengthIsBooked(g, v2, b2, e);
    } else {
      NoChainNoLength(g, v2, e);
    }
  }

  lemma PreparedEmpty(g: Geo, v: Vol, b: Book, x: nat)
    requires Inv(g, v, b) && x in b.dirs
    ensures Prepared(g, v, b, v, b, Ent(0x20, 0, 0), [], 0, x)
  {
    EmptyFile(g, v, Ent(0x20, 0, 0));
    SameSelf(g, v, b);
    DirSecsInArea(g, v, x);
  }

  lemma PreparedData(g: Geo, v: Vol, b: Book, v1: Vol, first: nat, ch: seq<Cluster>, data: seq<byte>, x: nat)
    requires Inv(g, v, b) && DataWritten(g, v, b, v1, first, ch, data) && |data| < 0x1_0000_0000 && x in b.dirs
    ensures Prepared(g, v, b, v1, b.(chains := b.chains[first := ch]), Ent(0x20, first, |data|), data, |ch|, x)
  {
    AdoptData(g, v, b, v1, first, ch, data);
    NewFileReady(g, v, b, v1, first, ch, data);
    RoomCarries(g, v, b, v1, x);
    ChainSecsLen(g, ch);
  }

  /** With the data on the card in `k` clusters, the entry can be added exactly when everything fits. */
  lemma FitsExactly(g: Geo, v: Vol, v1: Vol, x: nat, len: nat, k: nat)
    requires g.Ok() && Shape(g, v) && Shape(g, v1)
    requires InArea(v.area, DirSecs(g, v.fat, x)) && InArea(v1.area, DirSecs(g, v1.fat, x))
    requires HasRoom(g, v1, x) <==> HasRoom(g, v, x)
    requires FreeClusters(g, v1.fat) + k == FreeClusters(g, v.fat)
    requires len <= 512 * Times(k, g.spc) && (k > 0 ==> len > 512 * Times(k - 1, g.spc))
    ensures Fits(g, v, x, len) <==> HasRoom(g, v1, x) || (!IsRoot16(g, x) && FreeClusters(g, v1.fat) != 0)
    ensures len <= 512 * Times(FreeClusters(g, v.fat), g.spc)
  {
    var free := FreeClusters(g, v.fat);
    hide HasRoom, Shape, InArea, DirSecs, FreeClusters;
    NeedsClusters(g, len, k, free);
    if free > 0 {
      NeedsClusters(g, len, k, free - 1);
    }
  }

  lemma CreateDone(g: Geo, v: Vol, b: Book, v1: Vol, b1: Book, h1: seq<Vol>, v2: Vol, b2: Book, h2: seq<Vol>,
                   x: nat, n: Name, e: Ent, data: seq<byte>, k: nat, st: Status)
    requires Inv(g, v, b) && x in b.dirs && Entry(g, v, x, n).None?
    requires Prepared(g, v, b, v1, b1, e, data, k, x)
    requires AppendSpec(g, v1, b1, h1, v2, b2, h2, x, n, e, st)
    ensures CreatedIn(g, v, b, v2, if st == Ok then b2 else b, x, n, data, st)
    ensures Inv(g, v2, if st == Ok then b2 else b)
  {
    hide HasRoom, InArea, FreeClusters, EntReady, CreatedIn, Added, Inv, Same, Fits;
    InvRoot(g, v, b);
    InvRoot(g, v1, b);
    FitsExactly(g, v, v1, x, |data|, k);
    if st == Ok {
      CreatedOk(g, v, b, v1, b1, v2, b2, x, n, e, data, k);
    } else {
      CreatedNot(g, v, b, v1, b1, x, n, e, data, k);
    }
  }

  lemma CreatedOk(g: Geo, v: Vol, b: Book, v1: Vol, b1: Book, v2: Vol, b2: Book, x: nat, n: Name, e: Ent,
                  data: seq<byte>, k: nat)
    requires Inv(g, v, b) && x in b.dirs && Prepared(g, v, b, v1, b1, e, data, k, x)
      && Added(g, v1, b1, v2, b2, x, n, e)
    requires Fits(g, v, x, |data|) && |data| <= 512 * Times(FreeClusters(g, v.fat), g.spc)
    ensures CreatedIn(g, v, b, v2, b2, x, n, data, Ok) && Inv(g, v2, b2)
  {
    hide HasRoom, InArea, FreeClusters, EntReady, Inv, Same, Tight, Fits, DirSecs, Times, FileBytes, Entry, FreshAt,
      ElseAgrees;
    InvRoot(g, v, b);
    InvRoot(g, v2, b2);
    CreatedTight(g, v, b, v1, b1, v2, b2, x, n, e, data, k);
    SameTrans(g, v, v1, v2, b.dirs, {}, {(x, n)});
    NothingMore({(x, n)});
  }

  lemma CreatedNot(g: Geo, v: Vol, b: Book, v1: Vol, b1: Book, x: nat, n: Name, e: Ent, data: seq<byte>, k: nat)
    requires Inv(g, v, b) && x in b.dirs && Prepared(g, v, b, v1, b1, e, data, k, x)
    requires !Fits(g, v, x, |data|) && |data| <= 512 * Times(FreeClusters(g, v.fat), g.spc)
    ensures CreatedIn(g, v, b, v1, b, x, n, data, NoSpace) && Inv(g, v1, b)
  {
    hide HasRoom, InArea, FreeClusters, EntReady, Inv, Same, Fits, DirSecs, Clusters, Times, Entry, FileBytes;
    InvRoot(g, v, b);
    ClustersEnough(g, |data|, k);
    ClustersEnough(g, |data|, FreeClusters(g, v.fat));
    if k > 0 { ClustersEnough(g, |data|, k - 1); }
  }

  lemma CreateFailed(g: Geo, v: Vol, b: Book, v': Vol, x: nat, n: Name, data: seq<byte>)
    requires Inv(g, v, b) && x in b.dirs && Untouched(g, b.chains, v, v') && v'.fat == v.fat
    requires |data| > 512 * Times(FreeClusters(g, v.fat), g.spc)
    ensures InArea(v.area, DirSecs(g, v.fat, x)) && CreatedIn(g, v, b, v', b, x, n, data, NoSpace) && Inv(g, v', b)
  {
    OffBook(g, v, b, v');
    DirSecsInArea(g, v, x);
    InvRoot(g, v, b);
    ClustersEnough(g, |data|, FreeClusters(g, v.fat));
  }

  /** The creating part of fat_create, in a directory that has no entry called `n`. */
  method CreateIn(fs: Volume, x: nat, n: Name, data: seq<byte>) returns (st: Status)
    requires fs.Valid() && Inv(fs.g, fs.vol, fs.book) && x in fs.book.dirs && |data| < 0x1_0000_0000
    requires Entry(fs.g, fs.vol, x, n).None?
    modifies fs.Arrays(), fs`vol, fs`hist, fs`cacheNext, fs`book
    ensures fs.Valid() && InArea(old(fs.vol).area, DirSecs(fs.g, old(fs.vol).fat, x))
    ensures CreatedIn(fs.g, old(fs.vol), old(fs.book), fs.vol, fs.book, x, n, data, st)
    ensures SoundStep(fs.g, old(fs.vol), old(fs.book), old(fs.hist), fs.vol, fs.book, fs.hist, {})
  {
    hide Volume.Valid, Inv, Entry, Same, Untouched, AppendSpec, DataWritten, Prepared, CreatedIn;
    ghost var v, b, h := fs.vol, fs.book, fs.hist;
    DirSecsInArea(fs.g, v, x);
    var first := 0;
    ghost var b1, k := b, 0;
    if data == [] {
      PreparedEmpty(fs.g, v, b, x);
    } else {
      ghost var ch;
      first, ch := WriteData(fs, data);
      KeptFromUntouched(fs.g, v, b, fs.hist, |h|);
      if first == 0 {
        CreateFailed(fs.g, v, b, fs.vol, x, n, data);
        return NoSpace;
      }
      PreparedData(fs.g, v, b, fs.vol, first, ch, data, x);
      b1, k := b.(chains := b.chains[first := ch]), |ch|;
    }
    ghost var v1, h1 := fs.vol, fs.hist;
    var e := Ent(0x20, first, |data|);
    PreparedFacts(fs.g, v, b, v1, b1, e, data, k, x, n);
    fs.SetBook(b1);
    st := AppendDirent(fs, x, n, e);
    ghost var v2, b2, h2 := fs.vol, fs.book, fs.hist;
    CreateDone(fs.g, v, b, v1, b1, h1, v2, b2, h2, x, n, e, data, k, st);
    AppendKept(fs.g, v, b, h, v1, b1, h1, v2, b2, h2, x, n, e, st);
    if st != Ok {
      fs.SetBook(b);
    }
  }

  lemma PreparedFacts(g: Geo, v: Vol, b: Book, v1: Vol, b1: Book, e: Ent, data: seq<byte>, k: nat, x: nat, n: Name)
    requires Inv(g, v, b) && x in b.dirs && Prepared(g, v, b, v1, b1, e, data, k, x)
    ensures Inv(g, v1, b1) && EntReady(g, b1, e) && b1.dirs == b.dirs && Entry(g, v1, x, n) == Entry(g, v, x, n)
    ensures Keeps(g, v, v1, b.dirs, {})
  {
  }

  lemma AppendKept(g: Geo, v: Vol, b: Book, h: seq<Vol>, v1: Vol, b1: Book, h1: seq<Vol>, v2: Vol, b2: Book,
                   h2: seq<Vol>, x: nat, n: Name, e: Ent, st: Status)
    requires h <= h1 && KeptSince(g, v, b.dirs, {}, h1, |h|) && Keeps(g, v, v1, b.dirs, {}) && b1.dirs == b.dirs
    requires AppendSpec(g, v1, b1, h1, v2, b2, h2, x, n, e, st)
    ensures h <= h2 && KeptSince(g, v, b.dirs, {}, h2, |h|)
  {
    KeptTrans(g, v, v1, b.dirs, {}, h1, h2, |h|);
  }

  // ----- fat_create -----

  /** What fat_create promises for a path, whatever the volume holds. */
  ghost predicate CreateSpec(g: Geo, v: Vol, b: Book, v': Vol, b': Book, path: seq<Name>, data: seq<byte>, st: Status)
    requires g.Ok() && Shape(g, v) && Shape(g, v') && path != []
  {
    if Resolve(g, v, path).Found? then st == Exists && v' == v && b' == b
    else match ParentOf(g, v, path)
      case NoDir(err) => st == err && v' == v && b' == b
      case Dir(x) =>
        && x in b.dirs && InArea(v.area, DirSecs(g, v.fat, x))
        && CreatedIn(g, v, b, v', b', x, Leaf(path), data, st)
  }

  /** Everything a mutating call may rely on: a mounted card that holds a sound volume. */
  ghost predicate Sound(fs: Volume)
    reads fs, fs.Arrays()
  {
    fs.Valid() && Inv(fs.g, fs.vol, fs.book)
  }

  /** What the path of a call means on a sound volume. */
  lemma PathFacts(g: Geo, v: Vol, b: Book, path: seq<Name>)
    requires Inv(g, v, b) && path != []
    ensures FatOk(g, v.fat) && Walkable(g, v, g.rootCluster, path)
    ensures Walkable(g, v, g.rootCluster, path[..|path| - 1])
    ensures Resolve(g, v, path) == InDir(g, v, ParentOf(g, v, path), Leaf(path))
    ensures ParentOf(g, v, path).Dir? ==> ParentOf(g, v, path).id in b.dirs
  {
    SoundWalkable(g, v, b, g.rootCluster, path);
    SoundWalkable(g, v, b, g.rootCluster, path[..|path| - 1]);
    ParentSplit(g, v, path);
    ParentBooked(g, v, b, path);
  }

  method FatCreate(fs: Volume, path: seq<Name>, data: seq<byte>) returns (st: Status)
    requires Sound(fs) && path != [] && |data| < 0x1_0000_0000
    modifies fs.Arrays(), fs`vol, fs`hist, fs`cacheNext, fs`book
    ensures Sound(fs)
    ensures CreateSpec(fs.g, old(fs.vol), old(fs.book), fs.vol, fs.book, path, data, st)
    ensures SoundStep(fs.g, old(fs.vol), old(fs.book), old(fs.hist), fs.vol, fs.book, fs.hist, {})
  {
    hide Volume.Valid, Inv, CreatedIn, FatOk, Walkable, CreateSpec, SoundStep;
    ghost var v, b, h := fs.vol, fs.book, fs.hist;
    PathFacts(fs.g, v, b, path);
    var existing := ResolvePath(fs, path);
    if existing.Found? {
      CreateNothing(fs.g, v, b, h, path, data, Exists);
      return Exists;
    }
    var parent := ResolveParent(fs, path);
    if parent.NoDir? {
      CreateNothing(fs.g, v, b, h, path, data, parent.err);
      return parent.err;
    }
    st := CreateIn(fs, parent.id, Leaf(path), data);
    CreateThere(fs.g, v, b, h, fs.vol, fs.book, fs.hist, path, data, st);
  }

  lemma CreateNothing(g: Geo, v: Vol, b: Book, h: seq<Vol>, path: seq<Name>, data: seq<byte>, st: Status)
    requires Inv(g, v, b) && path != []
    requires if Resolve(g, v, path).Found? then st == Exists else ParentOf(g, v, path) == NoDir(st)
    ensures CreateSpec(g, v, b, v, b, path, data, st) && SoundStep(g, v, b, h, v, b, h, {})
  {
    hide CreatedIn;
  }

  lemma CreateThere(g: Geo, v: Vol, b: Book, h: seq<Vol>, v': Vol, b': Book, h': seq<Vol>,
                    path: seq<Name>, data: seq<byte>, st: Status)
    requires Inv(g, v, b) && path != [] && !Resolve(g, v, path).Found? && ParentOf(g, v, path).Dir? && Shape(g, v')
    requires var x := ParentOf(g, v, path).id;
      x in b.dirs && InArea(v.area, DirSecs(g, v.fat, x)) && CreatedIn(g, v, b, v', b', x, Leaf(path), data, st)
    requires SoundStep(g, v, b, h, v', b', h', {})
    ensures CreateSpec(g, v, b, v', b', path, data, st) && Inv(g, v', b')
  {
    hide CreatedIn;
  }
}
