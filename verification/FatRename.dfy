/** fat_rename, within one directory. */
module FatRename {
  import opened Basics
  import opened FatLayout
  import opened FatView
  import opened FatInv
  import opened FatSteps
  import opened FatVolume
  import opened FatAlloc
  import opened FatDir
  import opened FatGrow
  import opened FatCreate
  import opened FatUnlink

  /** A slot under a new name; everything else in it stays. */
  function Renamed(s: seq<byte>, n: Name): (r: seq<byte>)
    requires |s| == 32
    ensures |r| == 32 && r[..11] == n && r[0] == n[0] && r[11] == s[11] && EntOf(r) == EntOf(s) && r[11..] == s[11..]
  {
    var r := n + s[11..];
    assert forall i :: 11 <= i < 32 ==> r[i] == s[i];
    r
  }

  /** The slot that `n` named is named `n2`, with every other byte as it was. */
  ghost predicate NewlyNamed(g: Geo, v: Vol, v': Vol, x: nat, n: Name, n2: Name) {
    exists s, s' ::
      WrittenAt(g, v, x, n, s) && WrittenAt(g, v', x, n2, s') && |s| == |s'| == 32 && s[..11] == n && s'[..11] == n2
      && s'[11..] == s[11..]
  }

  /** The entry moved from the name `n` to the name `n2`, and nothing else changed its meaning. */
  ghost predicate Moved(g: Geo, v: Vol, b: Book, v': Vol, x: nat, n: Name, n2: Name, e: Ent)
    requires Shape(g, v) && Shape(g, v')
  {
    && Entry(g, v', x, n) == None && Entry(g, v', x, n2) == Some(e)
    && (!e.IsDir() ==> FileBytes(g, v', e) == FileBytes(g, v, e))
    && Same(g, v, v', b.dirs, {(x, n), (x, n2)}) && v'.fat == v.fat && NewlyNamed(g, v, v', x, n, n2)
  }

  lemma RenameEntry(g: Geo, v: Vol, b: Book, x: nat, k: nat, n: Name, n2: Name)
    requires Inv(g, v, b) && x in b.dirs && Entry(g, v, x, n2).None? && n != n2
    requires InArea(v.area, Secs(g, b, x)) && FoundAt(v.area, Secs(g, b, x), n, k)
    ensures var s := Slot(v.area, Secs(g, b, x), k);
            var v' := v.(area := PutSlot(v.area, Secs(g, b, x), k, Renamed(s, n2)));
            && Inv(g, v', b) && Same(g, v, v', b.dirs, {(x, n), (x, n2)})
            && Entry(g, v', x, n2) == Some(EntOf(s)) && Entry(g, v', x, n) == None && NewlyNamed(g, v, v', x, n, n2)
  {
    hide NewlyNamed, WrittenAt;
    var s := Slot(v.area, Secs(g, b, x), k);
    assert DirOk(g, v, b, x);
    assert s[0] == s[..11][0];
    assert SlotOk(g, b, x, k, s);
    AbsentIsNew(g, v, b, x, k, Renamed(s, n2), n2);
    WriteEntry(g, v, b, x, k, Renamed(s, n2), n2, b, {(x, n), (x, n2)});
    NameGone(g, v, b, x, k, Renamed(s, n2), n, b);
    FoundIsWritten(g, v, b, x, k, n);
    NamedAnew(g, v, v.(area := PutSlot(v.area, Secs(g, b, x), k, Renamed(s, n2))), x, n, n2, s);
  }

  lemma FoundIsWritten(g: Geo, v: Vol, b: Book, x: nat, k: nat, n: Name)
    requires Inv(g, v, b) && x in b.dirs
    requires InArea(v.area, Secs(g, b, x)) && FoundAt(v.area, Secs(g, b, x), n, k)
    ensures WrittenAt(g, v, x, n, Slot(v.area, Secs(g, b, x), k))
  {
    DirSecsAreBooked(g, v, b, x);
  }

  lemma NamedAnew(g: Geo, v: Vol, v': Vol, x: nat, n: Name, n2: Name, s: seq<byte>)
    requires |s| == 32 && s[..11] == n && WrittenAt(g, v, x, n, s) && WrittenAt(g, v', x, n2, Renamed(s, n2))
    ensures NewlyNamed(g, v, v', x, n, n2)
  {
    hide WrittenAt, Renamed;
  }

  /** Writing a directory slot leaves every file's bytes alone. */
  lemma PutSlotFile(g: Geo, v: Vol, b: Book, x: nat, k: nat, s: seq<byte>, y: nat, m: Name)
    requires Inv(g, v, b) && x in b.dirs && |s| == 32 && y in b.dirs
    requires InArea(v.area, Secs(g, b, x)) && k < 16 * |Secs(g, b, x)|
    requires Entry(g, v, y, m).Some? && !Entry(g, v, y, m).value.IsDir()
    ensures SameFile(g, v, v.(area := PutSlot(v.area, Secs(g, b, x), k, s)), Entry(g, v, y, m))
  {
    PutSlotEffect(g, v, b, x, k, s);
    var v' := v.(area := PutSlot(v.area, Secs(g, b, x), k, s));
    forall h | h in b.chains && h !in b.dirs ensures Carried(g, v, v', b.chains[h], b.chains[h]) {
      HeadsAreClusters(g, v.fat, b.chains, h);
      assert AgreeOn(v.area, v'.area, Secs(g, b, h));
    }
    CarryFileIfAny(g, v, b, v', b.chains, y, m);
  }

  lemma RenameMoves(g: Geo, v: Vol, b: Book, path: seq<Name>, x: nat, k: nat, n2: Name)
    requires Inv(g, v, b) && path != [] && Resolve(g, v, path).Found? && ParentOf(g, v, path) == Dir(x)
    requires Entry(g, v, x, n2).None? && x in b.dirs
    requires InArea(v.area, DirSecs(g, v.fat, x)) && FoundAt(v.area, DirSecs(g, v.fat, x), Leaf(path), k)
    requires Resolve(g, v, path).ent == EntOf(Slot(v.area, DirSecs(g, v.fat, x), k))
    ensures var secs := DirSecs(g, v.fat, x);
      var v' := v.(area := PutSlot(v.area, secs, k, Renamed(Slot(v.area, secs, k), n2)));
      && Inv(g, v', b) && Moved(g, v, b, v', x, Leaf(path), n2, Resolve(g, v, path).ent)
      && Keeps(g, v, v', b.dirs, {(x, Leaf(path))})
  {
    PathFacts(g, v, b, path);
    DirSecsAreBooked(g, v, b, x);
    var s := Slot(v.area, Secs(g, b, x), k);
    RenameEntry(g, v, b, x, k, Leaf(path), n2);
    if !Resolve(g, v, path).ent.IsDir() {
      PutSlotFile(g, v, b, x, k, Renamed(s, n2), x, Leaf(path));
    }
  }

  /** Whether a rename is refused, or in which directory it takes place. */
  datatype Plan = Refuse(st: Status) | Go(x: nat, e: Ent)

  function RenamePlan(g: Geo, v: Vol, path: seq<Name>, path2: seq<Name>): Plan
    requires Shape(g, v) && path != [] && path2 != []
  {
    match Resolve(g, v, path)
    case Miss(err) => Refuse(err)
    case Found(e) =>
      if Resolve(g, v, path2).Found? then Refuse(Exists)
      else
        match ParentOf(g, v, path2)
        case NoDir(err) => Refuse(err)
        case Dir(y) => if ParentOf(g, v, path) == Dir(y) then Go(y, e) else Refuse(Unsupported)
  }

  /** What fat_rename promises: a refusal changes nothing, and otherwise the entry moves. */
  ghost predicate RenameSpec(g: Geo, v: Vol, b: Book, v': Vol, path: seq<Name>, path2: seq<Name>, st: Status)
    requires g.Ok() && Shape(g, v) && Shape(g, v') && path != [] && path2 != []
  {
    match RenamePlan(g, v, path, path2)
    case Refuse(why) => st == why && v' == v
    case Go(x, e) => st == Ok && x in b.dirs && Moved(g, v, b, v', x, Leaf(path), Leaf(path2), e)
  }

  /** The path's entry is slot `k` of directory `x`: slot `i` of the buffered sector at `lba`. */
  ghost predicate SlotFound(g: Geo, v: Vol, path: seq<Name>, x: nat, lba: nat, i: nat, k: nat, buf: seq<byte>)
    requires Shape(g, v) && path != [] && Resolve(g, v, path).Found?
  {
    var secs := DirSecs(g, v.fat, x);
    && InArea(v.area, secs) && i < 16 && |buf| == 512 && k < 16 * |secs| && secs[k / 16] < |v.area|
    && lba == g.AreaLba() + secs[k / 16] && i == k % 16 && buf == v.area[secs[k / 16]]
    && BufSlot(buf, i) == Slot(v.area, secs, k)
    && FoundAt(v.area, secs, Leaf(path), k)
    && Resolve(g, v, path).ent == EntOf(Slot(v.area, secs, k))
  }

  /** Finds the slot of the path's entry in its directory `x` and leaves its sector in the buffer. */
  method FindSlot(fs: Volume, path: seq<Name>, x: nat) returns (lba: nat, i: nat, ghost k: nat)
    requires Sound(fs) && path != [] && Resolve(fs.g, fs.vol, path).Found? && ParentOf(fs.g, fs.vol, path) == Dir(x)
    requires x in fs.book.dirs
    modifies fs.Scratch(), fs`cacheNext
    ensures fs.Valid() && SlotFound(fs.g, fs.vol, path, x, lba, i, k, fs.buf[..])
  {
    hide Volume.Valid, Inv, FatOk, WalkableDir;
    ghost var v, b := fs.vol, fs.book;
    InvDir(fs.g, v, b, x);
    var r;
    r, k := ScanDir(fs, x, ByName(Leaf(path)));
    NotBroken(fs.g, v, b, x, r);
    SecondLookup(fs.g, v, b, path, x, r, k, fs.buf[..]);
    lba, i := r.lba, r.i;
  }

  /** Puts the name `n2` into the slot of the path's entry. */
  method PatchName(fs: Volume, path: seq<Name>, x: nat, n2: Name)
    requires Sound(fs) && path != [] && Resolve(fs.g, fs.vol, path).Found? && ParentOf(fs.g, fs.vol, path) == Dir(x)
    requires Entry(fs.g, fs.vol, x, n2).None? && x in fs.book.dirs
    modifies fs.Arrays(), fs`vol, fs`hist, fs`cacheNext
    ensures Sound(fs) && fs.book == old(fs.book)
    ensures Moved(fs.g, old(fs.vol), old(fs.book), fs.vol, x, Leaf(path), n2, Resolve(fs.g, old(fs.vol), path).ent)
    ensures fs.hist == old(fs.hist) + [fs.vol]
  {
    hide Volume.Valid, Inv, Moved, FoundAt, Entry, ParentOf, Renamed, DirSecs;
    ghost var v, b := fs.vol, fs.book;
    var lba, i, k := FindSlot(fs, path, x);
    RenameMoves(fs.g, v, b, path, x, k, n2);
    WriteSlot(fs, lba, i, Renamed(BufSlot(fs.buf[..], i), n2), DirSecs(fs.g, v.fat, x), k);
  }

  lemma NotBroken(g: Geo, v: Vol, b: Book, x: nat, r: Scan)
    requires Inv(g, v, b) && x in b.dirs
    requires r.Broken? ==> !IsRoot16(g, x) && |ChainOf(g, v.fat, x)| == g.clusters + 2
    ensures !r.Broken?
  {
    SoundDirWalkable(g, v, b, x);
  }

  lemma PlanFacts(g: Geo, v: Vol, b: Book, path: seq<Name>, path2: seq<Name>)
    requires Inv(g, v, b) && path != [] && path2 != []
    ensures Resolve(g, v, path).Found? ==> ParentOf(g, v, path).Dir?
    ensures RenamePlan(g, v, path, path2) != Refuse(Ok)
    ensures RenamePlan(g, v, path, path2).Go? ==>
      var x := RenamePlan(g, v, path, path2).x;
      ParentOf(g, v, path) == Dir(x) && x in b.dirs && Entry(g, v, x, Leaf(path2)).None?
  {
    hide Inv, ResolveFrom, Entry, FatOk, Walkable;
    InvRoot(g, v, b);
    PathFacts(g, v, b, path);
    PathFacts(g, v, b, path2);
    MissIsError(g, v, g.rootCluster, path);
    if |path2| > 1 { MissIsError(g, v, g.rootCluster, path2[..|path2| - 1]); }
  }

  lemma {:induction false} MissIsError(g: Geo, v: Vol, x: nat, path: seq<Name>)
    requires Shape(g, v)
    ensures ResolveFrom(g, v, x, path) != Miss(Ok)
    decreases |path|
  {
    if |path| > 1 && Entry(g, v, x, path[0]).Some? && Entry(g, v, x, path[0]).value.IsDir() {
      MissIsError(g, v, Entry(g, v, x, path[0]).value.head, path[1..]);
    }
  }

  /** The checks of fat_rename, in its order. */
  method CheckRename(fs: Volume, path: seq<Name>, path2: seq<Name>) returns (p: Plan)
    requires Sound(fs) && path != [] && path2 != []
    modifies fs.Scratch(), fs`cacheNext
    ensures fs.Valid() && p == RenamePlan(fs.g, fs.vol, path, path2)
  {
    hide Volume.Valid, Inv, FatOk, Walkable;
    PathFacts(fs.g, fs.vol, fs.book, path);
    PathFacts(fs.g, fs.vol, fs.book, path2);
    PlanFacts(fs.g, fs.vol, fs.book, path, path2);
    var found := ResolvePath(fs, path);
    if found.Miss? {
      return Refuse(found.err);
    }
    var dup := ResolvePath(fs, path2);
    if dup.Found? {
      return Refuse(Exists);
    }
    var src := ResolveParent(fs, path);
    var dst := ResolveParent(fs, path2);
    if dst.NoDir? {
      return Refuse(dst.err);
    }
    p := if src == dst then Go(dst.id, found.ent) else Refuse(Unsupported);
  }

  method FatRename(fs: Volume, path: seq<Name>, path2: seq<Name>) returns (st: Status)
    requires Sound(fs) && path != [] && path2 != []
    modifies fs.Arrays(), fs`vol, fs`hist, fs`cacheNext
    ensures Sound(fs) && fs.book == old(fs.book)
    ensures RenameSpec(fs.g, old(fs.vol), old(fs.book), fs.vol, path, path2, st)
    ensures fs.hist == if st == Ok then old(fs.hist) + [fs.vol] else old(fs.hist)
  {
    hide Volume.Valid, Inv, Moved, RenameSpec;
    ghost var v, b := fs.vol, fs.book;
    PlanFacts(fs.g, v, b, path, path2);
    var p := CheckRename(fs, path, path2);
    if p.Refuse? {
      RenameIs(fs.g, v, b, v, path, path2, p.st);
      return p.st;
    }
    PatchName(fs, path, p.x, Leaf(path2));
    RenameIs(fs.g, v, b, fs.vol, path, path2, Ok);
    st := Ok;
  }

  lemma RenameIs(g: Geo, v: Vol, b: Book, v': Vol, path: seq<Name>, path2: seq<Name>, st: Status)
    requires g.Ok() && Shape(g, v) && Shape(g, v') && path != [] && path2 != []
    requires match RenamePlan(g, v, path, path2)
             case Refuse(why) => st == why && v' == v
             case Go(x, e) => st == Ok && x in b.dirs && Moved(g, v, b, v', x, Leaf(path), Leaf(path2), e)
    ensures RenameSpec(g, v, b, v', path, path2, st)
  {
    hide Moved;
  }
}
