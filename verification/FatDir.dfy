/** Scanning directories, resolving paths and adding directory entries. */
module FatDir {
  import opened Basics
  import opened FatLayout
  import opened FatView
  import opened FatInv
  import opened FatVolume

  /** What a scan looks for: the entry of a name, a slot that can take a new entry, or any entry. */
  datatype Want = ByName(n: Name) | FreeSlot | AnyEntry

  predicate Accepts(w: Want, s: seq<byte>)
    requires |s| == 32
  {
    match w
    case ByName(n) => Matches(s, n)
    case FreeSlot => !Live(s)
    case AnyEntry => Live(s) && !IsVolumeLabel(s) && !Dot(s)
  }

  /** The scan passes the first `m` slots: none is accepted and none is the end marker. */
  ghost predicate Passes(area: seq<Sector>, secs: seq<nat>, w: Want, m: nat)
    requires InArea(area, secs) && m <= 16 * |secs|
  {
    forall i :: 0 <= i < m ==> Slot(area, secs, i)[0] != 0 && !Accepts(w, Slot(area, secs, i))
  }

  /** A hit in the buffered sector at `lba`, the end marker, all slots passed, or a circular chain. */
  datatype Scan = Hit(lba: nat, i: nat) | End | Full(last: nat) | Broken

  /** Slot `i` of the buffered sector. */
  function BufSlot(b: seq<byte>, i: nat): seq<byte>
    requires |b| == 512 && i < 16
  {
    b[32 * i..32 * i + 32]
  }

  /** Scans the consecutive sectors from `first`, which are sectors `base..` of the directory. */
  method ScanRun(fs: Volume, first: nat, count: nat, w: Want, ghost secs: seq<nat>, ghost base: nat)
    returns (r: Scan, ghost k: nat)
    requires fs.Valid() && InArea(fs.vol.area, secs) && base + count <= |secs|
    requires first >= fs.g.AreaLba()
    requires forall j :: base <= j < base + count ==> secs[j] == first - fs.g.AreaLba() + (j - base)
    requires Passes(fs.vol.area, secs, w, 16 * base)
    modifies fs.buf
    ensures fs.Valid() && !r.Broken?
    ensures r.Hit? ==> HitAt(fs.g, fs.vol.area, secs, w, k, r.lba, r.i) && fs.buf[..] == fs.vol.area[secs[k / 16]]
    ensures r.End? ==> EndAt(fs.vol.area, secs, w, k)
    ensures r.Full? ==> Passes(fs.vol.area, secs, w, 16 * (base + count))
  {
    hide Volume.Valid, Slot, BufSlot;
    for s := 0 to count
      invariant fs.Valid() && Passes(fs.vol.area, secs, w, 16 * (base + s))
    {
      assert secs[base + s] == first - fs.g.AreaLba() + s;
      fs.ReadSector(first + s);
      for i := 0 to 16
        invariant fs.Valid() && fs.buf[..] == fs.vol.area[secs[base + s]]
        invariant Passes(fs.vol.area, secs, w, 16 * (base + s) + i)
      {
        var slot := BufSlot(fs.buf[..], i);
        SlotInSector(fs.vol.area, secs, base + s, i);
        if Accepts(w, slot) {
          return Hit(first + s, i), 16 * (base + s) + i;
        }
        if slot[0] == 0 {
          return End, 16 * (base + s) + i;
        }
      }
    }
    return Full(0), 0;
  }

  lemma SlotInSector(area: seq<Sector>, secs: seq<nat>, j: nat, i: nat)
    requires InArea(area, secs) && j < |secs| && i < 16
    ensures (16 * j + i) / 16 == j && (16 * j + i) % 16 == i
    ensures Slot(area, secs, 16 * j + i) == BufSlot(area[secs[j]], i)
  {
  }

  ghost predicate HitAt(g: Geo, area: seq<Sector>, secs: seq<nat>, w: Want, k: nat, lba: nat, i: nat)
    requires InArea(area, secs)
  {
    && k < 16 * |secs| && Passes(area, secs, w, k) && Accepts(w, Slot(area, secs, k))
    && lba == g.AreaLba() + secs[k / 16] && i == k % 16
  }

  ghost predicate EndAt(area: seq<Sector>, secs: seq<nat>, w: Want, k: nat)
    requires InArea(area, secs)
  {
    k < 16 * |secs| && Passes(area, secs, w, k) && Slot(area, secs, k)[0] == 0 && !w.FreeSlot?
  }

  /** Outcome of a scan of the whole list `secs`. */
  ghost predicate ScanOk(g: Geo, area: seq<Sector>, secs: seq<nat>, w: Want, r: Scan, k: nat, buf: seq<byte>)
    requires InArea(area, secs)
  {
    && (r.Hit? ==> HitAt(g, area, secs, w, k, r.lba, r.i) && buf == area[secs[k / 16]])
    && (r.End? ==> EndAt(area, secs, w, k))
    && (r.Full? ==> Passes(area, secs, w, 16 * |secs|))
  }

  predicate LinkOk(g: Geo, e: nat) { e == 0 || g.IsEoc(e) || g.InData(e) }

  /** A walk of the chain `ch` of `x` that stands before cluster `cur`, with `done` scanned in vain. */
  ghost predicate Walking(g: Geo, v: Vol, w: Want, x: nat, done: seq<Cluster>, cur: nat, last: nat)
    requires Shape(g, v) && InArea(v.area, SecsFrom(g, v.fat, x))
  {
    var ch := ChainOf(g, v.fat, x);
    && LinkOk(g, cur) && |done| <= g.clusters + 2
    && ch == done + Follow(g, v.fat, cur, g.clusters + 2 - |done|)
    && (if done == [] then cur == x else last == done[|done| - 1])
    && |ChainSecs(g, done)| <= |ChainSecs(g, ch)|
    && Passes(v.area, ChainSecs(g, ch), w, 16 * |ChainSecs(g, done)|)
  }

  /** Where the sectors of the cluster to be scanned next sit in the directory. */
  lemma WalkHere(g: Geo, v: Vol, w: Want, x: nat, done: seq<Cluster>, cur: Cluster, last: nat)
    requires g.Ok() && Shape(g, v) && InArea(v.area, SecsFrom(g, v.fat, x)) && g.InData(cur)
    requires Walking(g, v, w, x, done, cur, last) && |done| < g.clusters + 2
    ensures done + [cur] <= ChainOf(g, v.fat, x)
    ensures var secs, base := SecsFrom(g, v.fat, x), |ChainSecs(g, done)|;
      && |ChainSecs(g, done + [cur])| == base + g.spc <= |secs|
      && Passes(v.area, secs, w, 16 * base)
      && forall j :: base <= j < base + g.spc ==> secs[j] == g.SecOf(cur, 0) + (j - base)
  {
    assert Follow(g, v.fat, cur, g.clusters + 2 - |done|)
        == [cur] + Follow(g, v.fat, v.fat[cur], g.clusters + 1 - |done|);
    ChainSecsSnoc(g, done, cur);
    ChainSecsPrefix(g, done + [cur], ChainOf(g, v.fat, x));
  }

  lemma WalkStep(g: Geo, v: Vol, w: Want, x: nat, done: seq<Cluster>, cur: Cluster, last: nat)
    requires g.Ok() && Shape(g, v) && FatOk(g, v.fat) && InArea(v.area, SecsFrom(g, v.fat, x)) && g.InData(cur)
    requires Walking(g, v, w, x, done, cur, last) && |done| < g.clusters + 2
    requires |ChainSecs(g, done)| + g.spc <= |SecsFrom(g, v.fat, x)|
    requires Passes(v.area, SecsFrom(g, v.fat, x), w, 16 * (|ChainSecs(g, done)| + g.spc))
    ensures Walking(g, v, w, x, done + [cur], v.fat[cur], cur) && LinkOk(g, v.fat[cur])
  {
    hide ChainOf, Follow, ChainSecs, Passes;
    ChainSecsSnoc(g, done, cur);
    var fuel := g.clusters + 2 - |done|;
    FollowOne(g, v.fat, cur, fuel);
    MoveOver(done, cur, Follow(g, v.fat, v.fat[cur], fuel - 1));
  }

  lemma FollowOne(g: Geo, fat: seq<nat>, cur: Cluster, fuel: nat)
    requires g.InData(cur) && cur < |fat| && fuel > 0
    ensures Follow(g, fat, cur, fuel) == [cur] + Follow(g, fat, fat[cur], fuel - 1)
  {
  }

  lemma MoveOver<T>(s: seq<T>, x: T, t: seq<T>)
    ensures s + ([x] + t) == (s + [x]) + t
  {
  }

  lemma WalkEnd(g: Geo, v: Vol, w: Want, x: nat, done: seq<Cluster>, cur: nat, last: nat)
    requires g.Ok() && Shape(g, v) && InArea(v.area, SecsFrom(g, v.fat, x))
    requires Walking(g, v, w, x, done, cur, last)
    requires cur == 0 || g.IsEoc(cur) || |done| == g.clusters + 2
    ensures ChainOf(g, v.fat, x) == done
    ensures Passes(v.area, SecsFrom(g, v.fat, x), w, 16 * |SecsFrom(g, v.fat, x)|)
  {
    assert Follow(g, v.fat, cur, g.clusters + 2 - |done|) == [];
    assert ChainOf(g, v.fat, x) == done;
  }

  lemma WalkBegin(g: Geo, v: Vol, w: Want, x: nat)
    requires g.Ok() && Shape(g, v) && InArea(v.area, SecsFrom(g, v.fat, x)) && g.InData(x)
    ensures Walking(g, v, w, x, [], x, 0)
  {
  }

  lemma NoHit(g: Geo, area: seq<Sector>, secs: seq<nat>, w: Want, r: Scan, k: nat, buf: seq<byte>)
    requires InArea(area, secs) && (r.Broken? || (r.Full? && Passes(area, secs, w, 16 * |secs|)))
    ensures ScanOk(g, area, secs, w, r, k, buf)
  {
  }

  lemma RunIsScan(g: Geo, area: seq<Sector>, secs: seq<nat>, w: Want, r: Scan, k: nat, buf: seq<byte>)
    requires InArea(area, secs) && !r.Full?
    requires r.Hit? ==> HitAt(g, area, secs, w, k, r.lba, r.i) && buf == area[secs[k / 16]]
    requires r.End? ==> EndAt(area, secs, w, k)
    ensures ScanOk(g, area, secs, w, r, k, buf)
  {
  }

  /** The cluster-by-cluster scan of the chain from `x`. */
  method ScanChain(fs: Volume, x: nat, w: Want) returns (r: Scan, ghost k: nat)
    requires fs.Valid() && FatOk(fs.g, fs.vol.fat) && fs.g.InData(x)
    requires InArea(fs.vol.area, SecsFrom(fs.g, fs.vol.fat, x))
    modifies fs.Scratch(), fs`cacheNext
    ensures fs.Valid() && ScanOk(fs.g, fs.vol.area, SecsFrom(fs.g, fs.vol.fat, x), w, r, k, fs.buf[..])
    ensures r.Full? ==> var ch := ChainOf(fs.g, fs.vol.fat, x); ch != [] && r.last == ch[|ch| - 1]
    ensures r.Broken? ==> |ChainOf(fs.g, fs.vol.fat, x)| == fs.g.clusters + 2
  {
    hide Volume.Valid, Passes, ScanOk, HitAt, EndAt, Walking, SecsFrom, ChainOf, FatOk, InArea, ChainSecs;
    var cur, last, steps := x, 0, 0;
    ghost var done: seq<Cluster> := [];
    WalkBegin(fs.g, fs.vol, w, x);
    while cur != 0 && !fs.g.IsEoc(cur)
      invariant fs.Valid() && LinkOk(fs.g, cur)
      invariant |done| == steps <= fs.g.clusters + 2
      invariant done == [] ==> cur == x
      invariant done != [] ==> last == done[|done| - 1]
      invariant Walking(fs.g, fs.vol, w, x, done, cur, last)
      decreases fs.g.clusters + 2 - steps
    {
      steps := steps + 1;
      if steps > fs.g.clusters + 2 {
        WalkEnd(fs.g, fs.vol, w, x, done, cur, last);
        NoHit(fs.g, fs.vol.area, SecsFrom(fs.g, fs.vol.fat, x), w, Broken, 0, fs.buf[..]);
        return Broken, 0;
      }
      WalkHere(fs.g, fs.vol, w, x, done, cur, last);
      r, k := ScanRun(fs, fs.g.AreaLba() + fs.g.SecOf(cur, 0), fs.g.spc, w,
                      SecsFrom(fs.g, fs.vol.fat, x), |ChainSecs(fs.g, done)|);
      if !r.Full? {
        RunIsScan(fs.g, fs.vol.area, SecsFrom(fs.g, fs.vol.fat, x), w, r, k, fs.buf[..]);
        return;
      }
      WalkStep(fs.g, fs.vol, w, x, done, cur, last);
      done := done + [cur];
      last := cur;
      cur := fs.FatEntry(cur);
    }
    WalkEnd(fs.g, fs.vol, w, x, done, cur, last);
    NoHit(fs.g, fs.vol.area, SecsFrom(fs.g, fs.vol.fat, x), w, Full(last), 0, fs.buf[..]);
    r, k := Full(last), 0;
  }

  /**
   Scans directory `x`. It terminates on every table whose links are in range; a circular chain is
   reported as broken once more clusters were visited than there are.
   */
  method ScanDir(fs: Volume, x: nat, w: Want) returns (r: Scan, ghost k: nat)
    requires fs.Valid() && FatOk(fs.g, fs.vol.fat)
    requires IsRoot16(fs.g, x) || fs.g.InData(x)
    modifies fs.Scratch(), fs`cacheNext
    ensures fs.Valid() && InArea(fs.vol.area, DirSecs(fs.g, fs.vol.fat, x))
    ensures ScanOk(fs.g, fs.vol.area, DirSecs(fs.g, fs.vol.fat, x), w, r, k, fs.buf[..])
    ensures r.Full? && !IsRoot16(fs.g, x) ==>
      var ch := ChainOf(fs.g, fs.vol.fat, x); ch != [] && r.last == ch[|ch| - 1]
    ensures r.Broken? ==> !IsRoot16(fs.g, x) && |ChainOf(fs.g, fs.vol.fat, x)| == fs.g.clusters + 2
  {
    hide Volume.Valid;
    DirSecsInArea(fs.g, fs.vol, x);
    if IsRoot16(fs.g, x) {
      r, k := ScanRun(fs, fs.g.AreaLba(), fs.g.rootSecs, w, RootSecs(fs.g), 0);
    } else {
      r, k := ScanChain(fs, x, w);
    }
  }

  // ----- lookups and paths -----

  ghost predicate Walkable(g: Geo, v: Vol, x: nat, path: seq<Name>)
    requires Shape(g, v)
    decreases |path|
  {
    path != [] ==>
      && WalkableDir(g, v, x)
      && (|path| > 1 && Entry(g, v, x, path[0]).Some? && Entry(g, v, x, path[0]).value.IsDir() ==>
            Walkable(g, v, Entry(g, v, x, path[0]).value.head, path[1..]))
  }

  /** The invariant makes every path walkable. */
  lemma {:induction false} SoundWalkable(g: Geo, v: Vol, b: Book, x: nat, path: seq<Name>)
    requires Inv(g, v, b) && x in b.dirs
    ensures Walkable(g, v, x, path)
    decreases |path|
  {
    SoundDirWalkable(g, v, b, x);
    if |path| > 1 && Entry(g, v, x, path[0]).Some? && Entry(g, v, x, path[0]).value.IsDir() {
      var k := EntryFacts(g, v, b, x, path[0]);
      SoundWalkable(g, v, b, Entry(g, v, x, path[0]).value.head, path[1..]);
    }
  }

  lemma SoundDirWalkable(g: Geo, v: Vol, b: Book, x: nat)
    requires Inv(g, v, b) && x in b.dirs
    ensures WalkableDir(g, v, x)
  {
    if x in b.chains {
      ChainOfChain(g, v.fat, b.chains[x]);
    }
  }

  /** The driver can open the path, and reading to the end of the file yields exactly these bytes. */
  ghost predicate CanRead(g: Geo, v: Vol, path: seq<Name>, bytes: seq<byte>) {
    && g.Ok() && Shape(g, v) && FatOk(g, v.fat)
    && Walkable(g, v, g.rootCluster, path)
    && Reads(g, v, path, bytes) && Readable(g, v, Resolve(g, v, path).ent)
  }

  lemma ScanIsEntry(g: Geo, v: Vol, x: nat, n: Name, r: Scan, k: nat, buf: seq<byte>)
    requires Shape(g, v) && InArea(v.area, DirSecs(g, v.fat, x)) && !r.Broken?
    requires ScanOk(g, v.area, DirSecs(g, v.fat, x), ByName(n), r, k, buf)
    ensures r.Hit? ==> FoundAt(v.area, DirSecs(g, v.fat, x), n, k)
    ensures r.Hit? ==> |buf| == 512 && r.i < 16 && Entry(g, v, x, n) == Some(EntOf(BufSlot(buf, r.i)))
    ensures !r.Hit? ==> Entry(g, v, x, n) == None
  {
    var secs := DirSecs(g, v.fat, x);
    match r {
      case Hit(lba, i) =>
        FindFound(v.area, secs, n, k);
        SlotInSector(v.area, secs, k / 16, k % 16);
      case End => FindEnds(v.area, secs, n, k);
      case Full(last) => FindEnds(v.area, secs, n, 16 * |secs|);
    }
  }

  /** The entry called `n`, as the path resolver's visitor copies it out of the buffer. */
  method LookUp(fs: Volume, x: nat, n: Name) returns (e: Option<Ent>)
    requires fs.Valid() && FatOk(fs.g, fs.vol.fat) && WalkableDir(fs.g, fs.vol, x)
    modifies fs.Scratch(), fs`cacheNext
    ensures fs.Valid() && e == Entry(fs.g, fs.vol, x, n)
  {
    hide Volume.Valid;
    var r, k := ScanDir(fs, x, ByName(n));
    ScanIsEntry(fs.g, fs.vol, x, n, r, k, fs.buf[..]);
    if r.Hit? {
      e := Some(EntOf(BufSlot(fs.buf[..], r.i)));
    } else {
      e := None;
    }
  }

  method ResolvePath(fs: Volume, path: seq<Name>) returns (r: Lookup)
    requires fs.Valid() && FatOk(fs.g, fs.vol.fat) && Walkable(fs.g, fs.vol, fs.g.rootCluster, path)
    modifies fs.Scratch(), fs`cacheNext
    ensures fs.Valid() && r == Resolve(fs.g, fs.vol, path)
  {
    hide Volume.Valid;
    var cur := fs.g.rootCluster;
    var i := 0;
    while i < |path|
      invariant fs.Valid() && 0 <= i <= |path|
      invariant Walkable(fs.g, fs.vol, cur, path[i..])
      invariant ResolveFrom(fs.g, fs.vol, cur, path[i..]) == Resolve(fs.g, fs.vol, path)
    {
      assert path[i..][0] == path[i] && path[i..][1..] == path[i + 1..];
      var e := LookUp(fs, cur, path[i]);
      if e.None? {
        return Miss(NotFound);
      }
      i := i + 1;
      if i == |path| {
        return Found(e.value);
      }
      if !e.value.IsDir() {
        return Miss(NotFile);
      }
      cur := e.value.head;
    }
    r := Miss(NotFound);
  }

  /** The directory that the last component of `path` belongs to. */
  method ResolveParent(fs: Volume, path: seq<Name>) returns (r: DirLookup)
    requires fs.Valid() && FatOk(fs.g, fs.vol.fat) && path != []
    requires Walkable(fs.g, fs.vol, fs.g.rootCluster, path[..|path| - 1])
    modifies fs.Scratch(), fs`cacheNext
    ensures fs.Valid() && r == ParentOf(fs.g, fs.vol, path)
  {
    hide Volume.Valid;
    if |path| == 1 {
      return Dir(fs.g.rootCluster);
    }
    var p := ResolvePath(fs, path[..|path| - 1]);
    r := AsDir(p);
  }

  /** A path resolves exactly when its parent is a directory that has an entry of its last name. */
  lemma {:induction false} ResolveSplit(g: Geo, v: Vol, x: nat, path: seq<Name>)
    requires Shape(g, v) && path != []
    ensures ResolveFrom(g, v, x, path)
      == InDir(g, v, if |path| == 1 then Dir(x) else AsDir(ResolveFrom(g, v, x, path[..|path| - 1])),
               path[|path| - 1])
    decreases |path|
  {
    if |path| > 1 {
      var init := path[..|path| - 1];
      if Entry(g, v, x, path[0]).Some? && Entry(g, v, x, path[0]).value.IsDir() {
        ResolveSplit(g, v, Entry(g, v, x, path[0]).value.head, path[1..]);
        assert path[1..][..|path| - 2] == init[1..];
        assert path[1..][|path| - 2] == path[|path| - 1];
      }
    }
  }

  lemma ParentSplit(g: Geo, v: Vol, path: seq<Name>)
    requires Shape(g, v) && path != []
    ensures Resolve(g, v, path) == InDir(g, v, ParentOf(g, v, path), path[|path| - 1])
  {
    ResolveSplit(g, v, g.rootCluster, path);
  }

  /** On a sound volume every resolved directory is a booked one. */
  lemma {:induction false} ResolvedDirBooked(g: Geo, v: Vol, b: Book, x: nat, path: seq<Name>)
    requires Inv(g, v, b) && x in b.dirs
    ensures var r := ResolveFrom(g, v, x, path); r.Found? && r.ent.IsDir() ==> r.ent.head in b.dirs
    decreases |path|
  {
    if path != [] {
      var k := EntryFacts(g, v, b, x, path[0]);
      if Entry(g, v, x, path[0]).Some? && Entry(g, v, x, path[0]).value.IsDir() && |path| > 1 {
        ResolvedDirBooked(g, v, b, Entry(g, v, x, path[0]).value.head, path[1..]);
      }
    }
  }

  lemma ParentBooked(g: Geo, v: Vol, b: Book, path: seq<Name>)
    requires Inv(g, v, b) && path != []
    ensures ParentOf(g, v, path).Dir? ==> ParentOf(g, v, path).id in b.dirs
  {
    ResolvedDirBooked(g, v, b, g.rootCluster, path[..|path| - 1]);
  }
}
