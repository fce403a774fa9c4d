/** fat_unlink of a path as its callers write it, and which files it really deletes. */
module FatTextUnlink {
  import opened Basics
  import opened FatLayout
  import opened FatView
  import opened FatInv
  import opened FatSteps
  import opened FatVolume
  import opened FatAlloc
  import opened FatDir
  import opened FatGrow
  import opened FatCreate
  import opened FatUnlink
  import opened FatAtomic
  import opened FatName
  import opened FatPath

  // ----- the call -----

  /** The name a scan compares with; none when no live slot can have it. */
  function ScanName(s: Text): (r: Option<Name>)
    ensures r.Some? ==> r.value == Code(SlotName(s))
  {
    var n := Code(SlotName(s));
    SlotNoDot(s);
    if n[0] == 0xE5 then None else Some(n)
  }

  /** The volume with slot `k` of the listed sectors marked deleted. */
  function Marked(v: Vol, secs: seq<nat>, k: nat): Vol
    requires InArea(v.area, secs) && k < 16 * |secs|
  {
    v.(area := PutSlot(v.area, secs, k, Slot(v.area, secs, k)[0 := 0xE5]))
  }

  /** Marking the slot of a name in directory `y` deleted. */
  function MarkName(g: Geo, v: Vol, y: nat, n: Option<Name>): (Vol, Status)
    requires Shape(g, v)
  {
    DirSecsInArea(g, v, y);
    var secs := DirSecs(g, v.fat, y);
    if n.None? then (v, NotFound)
    else
      match Find(v.area, secs, n.value, 0)
      case None => (v, NotFound)
      case Some(k) => FindBound(v.area, secs, n.value, 0); (Marked(v, secs, k), Ok)
  }

  /** What is done once the chain is released: the parent is looked for, and in it the last component. */
  function MarkLast(g: Geo, v: Vol, p: Text): (Vol, Status)
    requires Shape(g, v) && p != []
  {
    match ParentLookup(g, v, p)
    case NoDir(err) => (v, err)
    case Dir(y) => MarkName(g, v, y, ScanName(LastComp(p)))
  }

  /** The volume and the result. */
  ghost function TextUnlinked(g: Geo, v: Vol, p: Text): (Vol, Status)
    requires Shape(g, v) && p != []
  {
    match TextLookup(g, v, p)
    case Miss(err) => (v, err)
    case Found(e) =>
      if e.IsDir() && !EmptyDir(g, v, e.head) then (v, NotEmpty)
      else MarkLast(g, Released(g, v, e), p)
  }

  /** What a path's text denotes is an entry of some directory. */
  lemma {:induction false} TextFoundFrom(g: Geo, v: Vol, b: Book, y: nat, comps: seq<Text>, e: Ent)
    returns (x: nat, n: Name)
    requires Inv(g, v, b) && y in b.dirs && Shape(g, v) && TextFrom(g, v, y, comps) == Found(e)
    ensures x in b.dirs && Entry(g, v, x, n) == Some(e)
    decreases |comps|
  {
    hide Inv, Entry, NameOf, Closed;
    SoundClosed(g, v, b);
    if |comps| == 1 {
      x, n := y, NameOf(comps[0]).value;
    } else {
      ClosedStep(g, v, b.dirs, y, comps[0]);
      x, n := TextFoundFrom(g, v, b, TextEntry(g, v, y, comps[0]).value.head, comps[1..], e);
    }
  }

  lemma ClosedStep(g: Geo, v: Vol, dirs: set<nat>, y: nat, s: Text)
    requires Closed(g, v, dirs) && y in dirs
    ensures var e := TextEntry(g, v, y, s); e.Some? && e.value.IsDir() ==> e.value.head in dirs
  {
    hide Entry, NameOf, WalkableDir, FatOk;
  }

  lemma TextFound(g: Geo, v: Vol, b: Book, p: Text, e: Ent) returns (x: nat, n: Name)
    requires Inv(g, v, b) && Shape(g, v) && TextLookup(g, v, p) == Found(e)
    ensures x in b.dirs && Entry(g, v, x, n) == Some(e)
    ensures e.head < 2 || g.InData(e.head)
    ensures e.IsDir() ==> e.head in b.dirs
  {
    hide Inv, Entry, Comps, FoundAt, EndsAt, Find, Slot, TextFrom, FatOk;
    InvRoot(g, v, b);
    x, n := TextFoundFrom(g, v, b, g.rootCluster, Comps(p), e);
    ReleasedFacts(g, v, b, x, n);
    var k := EntryFacts(g, v, b, x, n);
  }

  // ----- lookups after the release -----

  lemma SameSectorsSameEntry(g: Geo, v: Vol, w: Vol, y: nat, n: Name)
    requires Shape(g, v) && Shape(g, w) && v.area == w.area && DirSecs(g, v.fat, y) == DirSecs(g, w.fat, y)
    ensures Entry(g, w, y, n) == Entry(g, v, y, n)
  {
    hide DirSecs;
  }

  /** The released empty directory shows its first cluster only, and still nothing there. */
  lemma ReleasedEmpty(g: Geo, v: Vol, b: Book, x: nat, n: Name, m: Name)
    requires Inv(g, v, b) && x in b.dirs && Entry(g, v, x, n).Some?
    requires var e := Entry(g, v, x, n).value; e.IsDir() && EmptyDir(g, v, e.head)
    ensures var e := Entry(g, v, x, n).value;
      && Shape(g, Released(g, v, e)) && WalkableDir(g, Released(g, v, e), e.head)
      && Entry(g, Released(g, v, e), e.head, m).None?
  {
    hide Inv, Entry, FoundAt, EndsAt, Find, Slot, ChainSecs, FatOk, Follow, EmptyDir, FreeFrom, FreeClusters,
      ChainLength;
    InvRoot(g, v, b);
    var e := Entry(g, v, x, n).value;
    var v' := Released(g, v, e);
    var k := EntryFacts(g, v, b, x, n);
    ReleasedShape(g, v, e);
    HeadCleared(g, v, b, x, n);
    FirstOnly(g, v', e.head);
    var ch := b.chains[e.head];
    BookedFirst(g, v, b, e.head);
    ChainSecsPrefix(g, [e.head], ch);
    EmptyPrefix(g, v, v', e.head, ChainSecs(g, [e.head]), ChainSecs(g, ch), m);
  }

  lemma HeadCleared(g: Geo, v: Vol, b: Book, x: nat, n: Name)
    requires Inv(g, v, b) && x in b.dirs && Entry(g, v, x, n).Some? && Entry(g, v, x, n).value.head in b.chains
    ensures var h := Entry(g, v, x, n).value.head;
      && g.InData(h) && h < |v.fat| && !IsRoot16(g, h)
      && h < |Released(g, v, Entry(g, v, x, n).value).fat| && Released(g, v, Entry(g, v, x, n).value).fat[h] == 0
  {
    hide Inv, Entry, Released, FatOk, FreeClusters, ChainLength;
    InvRoot(g, v, b);
    InvHead(g, v, b, Entry(g, v, x, n).value.head);
    BookedFirst(g, v, b, Entry(g, v, x, n).value.head);
    ReleasedFacts(g, v, b, x, n);
  }

  lemma BookedFirst(g: Geo, v: Vol, b: Book, h: nat)
    requires Inv(g, v, b) && h in b.chains
    ensures b.chains[h] != [] && b.chains[h][0] == h && [h] <= b.chains[h] && h in b.chains[h]
    ensures DirSecs(g, v.fat, h) == ChainSecs(g, b.chains[h]) && !IsRoot16(g, h) && h < |v.fat|
  {
    hide DirOk, FatOk, ChainSecs;
    InvHead(g, v, b, h);
    DirSecsAreBooked(g, v, b, h);
  }

  lemma FirstOnly(g: Geo, v: Vol, h: nat)
    requires g.Ok() && Shape(g, v) && g.InData(h) && h < |v.fat| && v.fat[h] == 0 && !IsRoot16(g, h)
    ensures ChainOf(g, v.fat, h) == [h] && DirSecs(g, v.fat, h) == ChainSecs(g, [h]) && WalkableDir(g, v, h)
  {
    hide ChainSecs;
    assert Follow(g, v.fat, 0, g.clusters + 1) == [];
  }

  lemma EmptyPrefix(g: Geo, v: Vol, w: Vol, h: nat, secs: seq<nat>, more: seq<nat>, m: Name)
    requires Shape(g, v) && Shape(g, w) && w.area == v.area && secs <= more && EmptyDir(g, v, h)
    requires DirSecs(g, v.fat, h) == more && DirSecs(g, w.fat, h) == secs
    ensures Entry(g, w, h, m).None?
  {
    hide DirSecs, Slot;
    DirSecsInArea(g, v, h);
    DirSecsInArea(g, w, h);
    assert Entry(g, v, h, m).None?;
    if Find(w.area, secs, m, 0).Some? {
      FindExtends(w.area, v.area, secs, more, m);
    }
  }

  /** Directories stay walkable, and what they list stays among them, when a chain is released. */
  lemma ReleasedClosed(g: Geo, v: Vol, b: Book, x: nat, n: Name)
    requires Inv(g, v, b) && x in b.dirs && Entry(g, v, x, n).Some?
    requires var e := Entry(g, v, x, n).value; e.IsDir() ==> EmptyDir(g, v, e.head)
    ensures Closed(g, Released(g, v, Entry(g, v, x, n).value), b.dirs)
  {
    hide Inv, Entry, Released, FatOk, WalkableDir, EmptyDir, DirSecs, FreeClusters, ChainLength;
    InvRoot(g, v, b);
    var e := Entry(g, v, x, n).value;
    var v' := Released(g, v, e);
    ReleasedShape(g, v, e);
    ReleasedFacts(g, v, b, x, n);
    SoundClosed(g, v, b);
    forall y | y in b.dirs ensures WalkableDir(g, v', y) {
      ReleasedWalkable(g, v, b, x, n, y);
    }
    forall y, m: Name | y in b.dirs && Entry(g, v', y, m).Some? && Entry(g, v', y, m).value.IsDir()
      ensures Entry(g, v', y, m).value.head in b.dirs
    {
      ReleasedEntry(g, v, b, x, n, y, m);
    }
  }

  lemma ReleasedWalkable(g: Geo, v: Vol, b: Book, x: nat, n: Name, y: nat)
    requires Inv(g, v, b) && x in b.dirs && Entry(g, v, x, n).Some? && y in b.dirs
    requires var e := Entry(g, v, x, n).value; e.IsDir() ==> EmptyDir(g, v, e.head)
    ensures WalkableDir(g, Released(g, v, Entry(g, v, x, n).value), y)
  {
    hide Inv, Entry, Released, WalkableDir, EmptyDir;
    InvRoot(g, v, b);
    if y in Remaining(b, Entry(g, v, x, n).value) {
      ReleasedDirs(g, v, b, x, n, y);
    } else {
      ReleasedEmpty(g, v, b, x, n, n);
    }
  }

  lemma ReleasedEntry(g: Geo, v: Vol, b: Book, x: nat, n: Name, y: nat, m: Name)
    requires Inv(g, v, b) && x in b.dirs && Entry(g, v, x, n).Some? && y in b.dirs
    requires var e := Entry(g, v, x, n).value; e.IsDir() ==> EmptyDir(g, v, e.head)
    ensures var e := Entry(g, v, x, n).value;
      && Shape(g, Released(g, v, e))
      && Entry(g, Released(g, v, e), y, m) == if y in Remaining(b, e) then Entry(g, v, y, m) else None
  {
    hide Inv, Entry, WalkableDir, EmptyDir, DirSecs, FreeFrom;
    InvRoot(g, v, b);
    var e := Entry(g, v, x, n).value;
    ReleasedShape(g, v, e);
    if y in Remaining(b, e) {
      ReleasedDirs(g, v, b, x, n, y);
      SameSectorsSameEntry(g, v, Released(g, v, e), y, m);
    } else {
      ReleasedEmpty(g, v, b, x, n, m);
    }
  }

  // ----- the call, imperatively -----

  lemma ScanFinds(g: Geo, v: Vol, y: nat, n: Name, r: Scan, k: nat, buf: seq<byte>)
    requires Shape(g, v) && InArea(v.area, DirSecs(g, v.fat, y)) && !r.Broken?
    requires ScanOk(g, v.area, DirSecs(g, v.fat, y), ByName(n), r, k, buf)
    ensures var secs := DirSecs(g, v.fat, y);
      if r.Hit? then
        && Find(v.area, secs, n, 0) == Some(k) && k < 16 * |secs| && secs[k / 16] < |v.area| && |buf| == 512
        && r.lba == g.AreaLba() + secs[k / 16] && r.i == k % 16 && buf == v.area[secs[k / 16]]
        && BufSlot(buf, r.i) == Slot(v.area, secs, k)
      else Find(v.area, secs, n, 0) == None
  {
    hide DirSecs;
    var secs := DirSecs(g, v.fat, y);
    match r {
      case Hit(lba, i) =>
        FindFound(v.area, secs, n, k);
        SlotInSector(v.area, secs, k / 16, k % 16);
      case End => FindEnds(v.area, secs, n, k);
      case Full(last) => FindEnds(v.area, secs, n, 16 * |secs|);
    }
  }

  /** Finds the slot of a component in a directory and marks it deleted. */
  method MarkComponent(fs: Volume, y: nat, component: Text) returns (st: Status)
    requires fs.Valid() && FatOk(fs.g, fs.vol.fat) && WalkableDir(fs.g, fs.vol, y)
    modifies fs.Arrays(), fs`vol, fs`hist, fs`cacheNext
    ensures fs.Valid() && Shape(fs.g, old(fs.vol))
    ensures (fs.vol, st) == MarkName(fs.g, old(fs.vol), y, ScanName(component))
  {
    hide Volume.Valid, FatOk, ScanOk, SlotName, DirSecs, Find, Slot;
    ghost var v := fs.vol;
    var name8, ext3 := new Octet[8](_ => ' '), new Octet[3](_ => ' ');
    var whole := Make83(component, name8, ext3);
    var name := Code(name8[..] + ext3[..]);
    SlotNoDot(component);
    if name[0] == 0xE5 {
      return NotFound;
    }
    ghost var k;
    var r;
    r, k := ScanDir(fs, y, ByName(name));
    ScanFinds(fs.g, v, y, name, r, k, fs.buf[..]);
    if !r.Hit? {
      return NotFound;
    }
    var s := BufSlot(fs.buf[..], r.i);
    WriteSlot(fs, r.lba, r.i, s[0 := 0xE5], DirSecs(fs.g, v.fat, y), k);
    st := Ok;
  }

  /** Everything after the emptiness check: the release, and then the search for the entry. */
  method RemoveText(fs: Volume, path: Text, e: Ent) returns (st: Status)
    requires Sound(fs) && path != [] && TextLookup(fs.g, fs.vol, path) == Found(e)
    requires e.IsDir() ==> EmptyDir(fs.g, fs.vol, e.head)
    modifies fs.Arrays(), fs`vol, fs`hist, fs`cacheNext
    ensures fs.Valid() && Shape(fs.g, Released(fs.g, old(fs.vol), e))
    ensures (fs.vol, st) == MarkLast(fs.g, Released(fs.g, old(fs.vol), e), path)
  {
    hide Volume.Valid, Inv, Closed, EmptyDir, FatOk, FreeFrom, TextLookup, MarkName, Entry, WalkableDir, ScanName,
      ParentLookup;
    ghost var v, b := fs.vol, fs.book;
    InvTable(fs.g, v, b);
    ghost var x, n := TextFound(fs.g, v, b, path, e);
    ReleasedClosed(fs.g, v, b, x, n);
    ClosedFacts(fs.g, Released(fs.g, v, e), b.dirs);
    if e.head >= 2 {
      FreeClusterChain(fs, e.head);
    }
    var parent, component := ResolveParentText(fs, path, b.dirs);
    if parent.NoDir? {
      return parent.err;
    }
    ParentWalkable(fs.g, fs.vol, b.dirs, path);
    st := MarkComponent(fs, parent.id, component);
  }

  lemma ClosedFacts(g: Geo, v: Vol, dirs: set<nat>)
    requires Closed(g, v, dirs)
    ensures Shape(g, v) && FatOk(g, v.fat)
  {
  }

  lemma {:induction false} ClosedFrom(g: Geo, v: Vol, dirs: set<nat>, y: nat, comps: seq<Text>)
    requires Closed(g, v, dirs) && y in dirs && Shape(g, v)
    ensures var r := TextFrom(g, v, y, comps); r.Found? && r.ent.IsDir() ==> r.ent.head in dirs
    decreases |comps|
  {
    hide Closed, TextEntry;
    if comps != [] {
      ClosedStep(g, v, dirs, y, comps[0]);
      var e := TextEntry(g, v, y, comps[0]);
      if |comps| > 1 && e.Some? && e.value.IsDir() {
        ClosedFrom(g, v, dirs, e.value.head, comps[1..]);
      }
    }
  }

  lemma ParentWalkable(g: Geo, v: Vol, dirs: set<nat>, p: Text)
    requires Closed(g, v, dirs) && Shape(g, v) && p != [] && ParentLookup(g, v, p).Dir?
    ensures WalkableDir(g, v, ParentLookup(g, v, p).id)
  {
    hide TextFrom, Comps, Entry, WalkableDir, FatOk, InRoot, LastComp;
    ClosedFrom(g, v, dirs, g.rootCluster, Comps(p[..LastSlash(p)]));
  }

  /** fat_unlink: what the whole text denotes is freed; what its last part names in its parent is marked deleted. */
  method FatUnlinkText(fs: Volume, path: Text) returns (st: Status)
    requires Sound(fs) && path != []
    modifies fs.Arrays(), fs`vol, fs`hist, fs`cacheNext
    ensures fs.Valid() && Shape(fs.g, old(fs.vol))
    ensures (fs.vol, st) == TextUnlinked(fs.g, old(fs.vol), path)
  {
    hide Volume.Valid, Inv, Closed, EmptyDir, TextLookup, MarkLast, Released, Entry;
    ghost var v, b := fs.vol, fs.book;
    InvRoot(fs.g, v, b);
    SoundClosed(fs.g, v, b);
    var found := ResolveText(fs, path, b.dirs);
    if found.Miss? {
      return found.err;
    }
    var e := found.ent;
    ghost var x, n := TextFound(fs.g, v, b, path, e);
    if e.IsDir() {
      var empty := IsEmptyDir(fs, e.head);
      if !empty {
        return NotEmpty;
      }
    }
    st := RemoveText(fs, path, e);
  }

  // ----- which entry is deleted -----

  /** The text denotes the entry `e`, which fat_unlink may remove: `n` of directory `x`, at the end of `path`. */
  ghost predicate Denotes(g: Geo, v: Vol, b: Book, p: Text, path: seq<Name>, x: nat, e: Ent) {
    && Inv(g, v, b) && Shape(g, v) && p != [] && Comps(p) != [] && AllNamed(Comps(p)) && path == NamesOf(Comps(p))
    && TextLookup(g, v, p) == Found(e) && FatView.Resolve(g, v, path) == Found(e)
    && ParentOf(g, v, path) == Dir(x) && x in b.dirs && Entry(g, v, x, Leaf(path)) == Some(e)
    && (e.IsDir() ==> EmptyDir(g, v, e.head))
  }

  lemma DenotesIntro(g: Geo, v: Vol, b: Book, p: Text, e: Ent) returns (path: seq<Name>, x: nat)
    requires Inv(g, v, b) && Shape(g, v) && p != [] && AllNamed(Comps(p)) && TextLookup(g, v, p) == Found(e)
    requires e.IsDir() ==> EmptyDir(g, v, e.head)
    ensures Denotes(g, v, b, p, path, x, e)
  {
    hide Inv, Entry, Comps, NameOf, TextFrom, ResolveFrom, EmptyDir, ParentOf, WalkableDir, FatOk, Walkable;
    path := NamesOf(Comps(p));
    NoComponents(g, v, p);
    TextIsPath(g, v, g.rootCluster, Comps(p));
    UnlinkFacts(g, v, b, path);
    x := ParentOf(g, v, path).id;
  }

  lemma NoComponents(g: Geo, v: Vol, p: Text)
    requires Shape(g, v) && TextLookup(g, v, p).Found?
    ensures Comps(p) != []
  {
    hide Comps;
  }

  /** With its chain released, the entry is found as before. */
  lemma StillThere(g: Geo, v: Vol, b: Book, p: Text, path: seq<Name>, x: nat, e: Ent)
    requires Denotes(g, v, b, p, path, x, e)
    ensures var w := Released(g, v, e);
      && Shape(g, w) && w.area == v.area && ParentOf(g, w, path) == Dir(x) && x in Remaining(b, e)
      && DirSecs(g, w.fat, x) == DirSecs(g, v.fat, x)
      && Entry(g, w, x, Leaf(path)) == Some(e) && TextLookup(g, w, p) == Found(e)
  {
    hide Inv, Entry, Comps, NameOf, TextFrom, ResolveFrom, EmptyDir, FreeFrom, DirSecs, WalkableDir, Walkable;
    ParentStillFound(g, v, b, path, x);
    ReleasedEntry(g, v, b, x, Leaf(path), x, Leaf(path));
    ReleasedDirs(g, v, b, x, Leaf(path), x);
    FoundThere(g, Released(g, v, e), p, path, x, e);
  }

  lemma FoundThere(g: Geo, w: Vol, p: Text, path: seq<Name>, x: nat, e: Ent)
    requires Shape(g, w) && Comps(p) != [] && AllNamed(Comps(p)) && path == NamesOf(Comps(p))
    requires ParentOf(g, w, path) == Dir(x)
    ensures TextLookup(g, w, p) == InDir(g, w, Dir(x), Leaf(path))
  {
    hide Entry, Comps, NameOf, TextFrom, ResolveFrom, ParentOf;
    TextIsPath(g, w, g.rootCluster, Comps(p));
    ParentSplit(g, w, path);
  }

  /** A path with a slash that does not split right has no parent at all. */
  lemma UnusualHasNoParent(g: Geo, v: Vol, p: Text)
    requires Shape(g, v) && p != [] && '/' in p && Comps(p) != [] && AllNamed(Comps(p)) && !Usual(p)
    ensures ParentLookup(g, v, p).NoDir?
  {
    hide Comps, NameOf, TextLookup;
    var k := LastSlash(p);
    if p[|p| - 1] != '/' && k < PARENT_MAX {
      CutAtLast(p);
      assert LastComp(p) != [];
      assert Comps(p[..k]) == [];
      NothingThere(g, v, p[..k]);
    }
  }

  /** A usual path marks the slot of the entry itself. */
  lemma UsualMarks(g: Geo, v: Vol, b: Book, p: Text, path: seq<Name>, x: nat, e: Ent) returns (k: nat)
    requires Denotes(g, v, b, p, path, x, e) && Usual(p)
    ensures MayGo(g, v, b, path, x, k) && Shape(g, Released(g, v, e))
    ensures MarkLast(g, Released(g, v, e), p) == (Unlinked(g, v, x, k), Ok)
  {
    hide Inv, Comps, NameOf, TextFrom, ResolveFrom, EmptyDir, FreeFrom, DirSecs, Usual, ParentLookup, Entry, FoundAt,
      LastComp, Slot, PutSlot, TextLookup, SlotName;
    var w := Released(g, v, e);
    StillThere(g, v, b, p, path, x, e);
    UsualParent(g, w, p);
    NamedIsScanned(LastComp(p));
    k := EntryAt(g, v, b, x, Leaf(path));
    FindBound(v.area, DirSecs(g, v.fat, x), Leaf(path), 0);
  }

  lemma NamedIsScanned(s: Text)
    requires NameOf(s).Some?
    ensures ScanName(s) == NameOf(s)
  {
    hide SlotName;
  }

  /** The slot in which an entry is found. */
  lemma EntryAt(g: Geo, v: Vol, b: Book, x: nat, n: Name) returns (k: nat)
    requires Inv(g, v, b) && x in b.dirs && Shape(g, v) && Entry(g, v, x, n).Some?
    ensures var secs := DirSecs(g, v.fat, x);
      && InArea(v.area, secs) && k < 16 * |secs| && FoundAt(v.area, secs, n, k) && Find(v.area, secs, n, 0) == Some(k)
      && Entry(g, v, x, n) == Some(EntOf(Slot(v.area, secs, k)))
  {
    hide Inv, Entry, Find, Slot;
    InvDirSecs(g, v, b, x);
    k := EntryFacts(g, v, b, x, n);
  }

  /** After a right deletion the text denotes nothing. */
  lemma UsualGone(g: Geo, v: Vol, b: Book, p: Text, path: seq<Name>, x: nat, e: Ent, k: nat)
    requires Denotes(g, v, b, p, path, x, e) && MayGo(g, v, b, path, x, k)
    ensures var v' := Unlinked(g, v, x, k);
      && Shape(g, v') && Inv(g, v', UnlinkBook(b, e)) && TextLookup(g, v', p) == Miss(NotFound)
      && UnlinkSpec(g, v, b, v', UnlinkBook(b, e), path, Ok)
  {
    hide Inv, Comps, NameOf, TextFrom, ResolveFrom, EmptyDir, Unlinked, Entry, FreeClusters, ChainLength, Same, Keeps,
      UnlinkBook, TextLookup, Slot, ParentOf;
    var v', n := Unlinked(g, v, x, k), Leaf(path);
    UnlinkRemoves(g, v, b, path, x, k);
    InvRoot(g, v', UnlinkBook(b, e));
    UnlinkDirs(b, e);
    SameKeeps(g, v, v', Remaining(b, e), {(x, n)}, {(x, n)});
    ParentWithout(g, v, b, v', path, x);
    FoundThere(g, v', p, path, x, e);
  }

  /** Marking another name of the root deleted leaves the entry there. */
  lemma OtherMarked(g: Geo, v: Vol, b: Book, x: nat, n: Name, n': Name, w: Vol)
    requires Inv(g, v, b) && x in b.dirs && Shape(g, v) && Shape(g, w) && n != n'
    requires w.area == v.area && DirSecs(g, w.fat, x) == DirSecs(g, v.fat, x)
    ensures var (v', st) := MarkName(g, w, x, Some(n'));
      && Shape(g, v') && v'.fat == w.fat && Entry(g, v', x, n) == Entry(g, v, x, n)
      && (st == Ok <==> Entry(g, v, x, n').Some?) && (st == Ok || st == NotFound) && Entry(g, v', x, n').None?
  {
    hide Inv, Entry, Slot, PutSlot, DirSecs, FoundAt, UnlinkBook;
    FindIsEntry(g, v, x, n');
    if Entry(g, v, x, n').Some? {
      var k := EntryAt(g, v, b, x, n');
      DeletedInv(g, v, b, x, k, n');
      var d := Marked(v, DirSecs(g, v.fat, x), k);
      var v' := Marked(w, DirSecs(g, w.fat, x), k);
      OthersSame(g, v, d, b.dirs, x, n, n');
      SameSectorsSameEntry(g, d, v', x, n);
      SameSectorsSameEntry(g, d, v', x, n');
    } else {
      SameSectorsSameEntry(g, v, w, x, n);
      SameSectorsSameEntry(g, v, w, x, n');
    }
  }

  lemma FindIsEntry(g: Geo, v: Vol, x: nat, n: Name)
    requires Shape(g, v)
    ensures InArea(v.area, DirSecs(g, v.fat, x))
    ensures Find(v.area, DirSecs(g, v.fat, x), n, 0).Some? <==> Entry(g, v, x, n).Some?
  {
    hide DirSecs, Slot;
    DirSecsInArea(g, v, x);
  }

  lemma OthersSame(g: Geo, v: Vol, v': Vol, dirs: set<nat>, x: nat, n: Name, n': Name)
    requires Same(g, v, v', dirs, {(x, n')}) && x in dirs && n != n'
    ensures Shape(g, v) && Shape(g, v') && Entry(g, v', x, n) == Entry(g, v, x, n)
  {
    hide Entry;
  }

  /** Without a slash, the entry stays where it is, and another one may be deleted. */
  lemma SlashlessStays(g: Geo, v: Vol, b: Book, p: Text, path: seq<Name>, x: nat, e: Ent)
    requires Denotes(g, v, b, p, path, x, e) && '/' !in p
    ensures var w, v' := Released(g, v, e), TextUnlinked(g, v, p).0;
      Shape(g, w) && Shape(g, v') && v'.fat == w.fat && TextLookup(g, v', p) == Found(e)
    ensures |p| > 1 && ScanName(p[1..]).Some? ==>
      && (TextUnlinked(g, v, p).1 == Ok <==> Entry(g, v, g.rootCluster, ScanName(p[1..]).value).Some?)
      && Entry(g, TextUnlinked(g, v, p).0, g.rootCluster, ScanName(p[1..]).value).None?
  {
    hide Inv, Comps, NameOf, TextFrom, ResolveFrom, EmptyDir, FreeFrom, DirSecs, Entry, SlotName, MarkName, TextLookup,
      ScanName, ParentLookup;
    var w := Released(g, v, e);
    StillThere(g, v, b, p, path, x, e);
    SlashlessLosesFirst(g, w, p);
    OnlyRoot(g, v, p, path, x);
    var tail := ScanName(p[1..]);
    if |p| > 1 {
      if tail.Some? {
        TailDiffers(p, path);
        OtherMarked(g, v, b, x, Leaf(path), tail.value, w);
        var v' := MarkName(g, w, x, tail).0;
        RootParent(g, v', path);
        FoundThere(g, v', p, path, x, e);
      } else {
        MarksNothing(g, w, x);
      }
    }
  }

  lemma MarksNothing(g: Geo, v: Vol, y: nat)
    requires Shape(g, v)
    ensures MarkName(g, v, y, None) == (v, NotFound)
  {
  }

  lemma RootParent(g: Geo, v: Vol, path: seq<Name>)
    requires Shape(g, v) && |path| == 1
    ensures ParentOf(g, v, path) == Dir(g.rootCluster)
  {
  }

  lemma OnlyRoot(g: Geo, v: Vol, p: Text, path: seq<Name>, x: nat)
    requires Shape(g, v) && Comps(p) == [p] && AllNamed(Comps(p)) && path == NamesOf(Comps(p))
    requires ParentOf(g, v, path) == Dir(x)
    ensures |path| == 1 && x == g.rootCluster && NameOf(p).Some? && Leaf(path) == NameOf(p).value
  {
    hide Comps, NameOf, Resolve;
    assert Comps(p)[0] == p;
  }

  lemma TailDiffers(p: Text, path: seq<Name>)
    requires p != [] && NameOf(p).Some? && path != [] && Leaf(path) == NameOf(p).value && ScanName(p[1..]).Some?
    requires SlotName(p[1..]) != SlotName(p)
    ensures Leaf(path) != ScanName(p[1..]).value
  {
    hide SlotName;
    NamedIsShort(p);
    CodeInjective(SlotName(p), SlotName(p[1..]));
  }

  lemma CodeInjective(s: Text, t: Text)
    ensures Code(s) == Code(t) ==> s == t
  {
    if Code(s) == Code(t) {
      forall i | 0 <= i < |s| ensures i < |t| && s[i] == t[i] {
        assert Code(s)[i] == Code(t)[i];
      }
    }
  }

  /** An entry whose first cluster is free is on no sound volume. */
  lemma FreedIsUnsound(g: Geo, v: Vol, b: Book, p: Text, e: Ent)
    requires Shape(g, v) && TextLookup(g, v, p) == Found(e)
    requires e.head != 0 && e.head < |v.fat| && v.fat[e.head] == 0
    ensures !Inv(g, v, b)
  {
    hide TextLookup;
    if Inv(g, v, b) {
      HeadTaken(g, v, b, p, e);
    }
  }

  lemma BookedTaken(g: Geo, v: Vol, b: Book, h: nat)
    requires Inv(g, v, b) && h in b.chains
    ensures h < |v.fat| && v.fat[h] != 0
  {
    hide DirOk;
    var ch := b.chains[h];
    assert IsChain(g, v.fat, ch) && ch[0] == h;
    if |ch| > 1 {
      assert v.fat[ch[0]] == ch[0 + 1];
    }
  }

  lemma HeadTaken(g: Geo, v: Vol, b: Book, p: Text, e: Ent)
    requires Inv(g, v, b) && Shape(g, v) && TextLookup(g, v, p) == Found(e) && e.head != 0
    ensures e.head < |v.fat| ==> v.fat[e.head] != 0
  {
    hide Inv, Entry, TextLookup, FoundAt, EndsAt, Find, Slot;
    var x, n := TextFound(g, v, b, p, e);
    var k := EntryFacts(g, v, b, x, n);
    BookedTaken(g, v, b, e.head);
  }

  /**
   The named entry is deleted, and the volume is as the deletion promises, exactly when the path has a slash, does
   not end in one, has a parent of fewer than 256 characters and no surplus slashes before a name in the root. Any
   other path leaves the entry in place with its clusters freed, and then the volume is not sound any more.
   */
  lemma UnlinkTextExactlyWhen(g: Geo, v: Vol, b: Book, p: Text, e: Ent)
    requires Inv(g, v, b) && Shape(g, v) && p != [] && AllNamed(Comps(p)) && TextLookup(g, v, p) == Found(e)
    requires e.IsDir() ==> EmptyDir(g, v, e.head)
    ensures var (v', st) := TextUnlinked(g, v, p);
      && Shape(g, v') && (TextLookup(g, v', p) == Miss(NotFound) <==> Usual(p))
      && (Usual(p) ==> st == Ok && Inv(g, v', UnlinkBook(b, e))
                       && UnlinkSpec(g, v, b, v', UnlinkBook(b, e), NamesOf(Comps(p)), Ok))
      && (!Usual(p) ==> TextLookup(g, v', p) == Found(e))
      && (!Usual(p) && e.head != 0 ==>
            e.head < |v'.fat| && v'.fat[e.head] == 0 && forall b' :: !Inv(g, v', b'))
  {
    hide Inv, Comps, EmptyDir, Released, MarkLast, Usual, TextLookup, Entry, UnlinkSpec, UnlinkBook, Unlinked;
    var path, x := DenotesIntro(g, v, b, p, e);
    StillThere(g, v, b, p, path, x, e);
    if Usual(p) {
      var k := UsualMarks(g, v, b, p, path, x, e);
      UsualGone(g, v, b, p, path, x, e, k);
    } else {
      UnusualStays(g, v, b, p, path, x, e);
      var v' := TextUnlinked(g, v, p).0;
      if e.head != 0 {
        ChainCleared(g, v, b, x, Leaf(path), e);
        forall b' ensures !Inv(g, v', b') {
          FreedIsUnsound(g, v', b', p, e);
        }
      }
    }
  }

  lemma ChainCleared(g: Geo, v: Vol, b: Book, x: nat, n: Name, e: Ent)
    requires Inv(g, v, b) && x in b.dirs && Shape(g, v) && Entry(g, v, x, n) == Some(e) && e.head != 0
    ensures e.head < |Released(g, v, e).fat| && Released(g, v, e).fat[e.head] == 0
  {
    hide Inv, Entry, Released, FoundAt, EndsAt, Find, Slot;
    var k := EntryFacts(g, v, b, x, n);
    HeadCleared(g, v, b, x, n);
  }

  lemma UnusualStays(g: Geo, v: Vol, b: Book, p: Text, path: seq<Name>, x: nat, e: Ent)
    requires Denotes(g, v, b, p, path, x, e) && !Usual(p)
    ensures var w, v' := Released(g, v, e), TextUnlinked(g, v, p).0;
      Shape(g, w) && Shape(g, v') && v'.fat == w.fat && TextLookup(g, v', p) == Found(e)
  {
    hide Inv, Comps, EmptyDir, Released, Usual, TextLookup, Entry, ParentLookup, MarkName, ResolveFrom, DirSecs;
    StillThere(g, v, b, p, path, x, e);
    if '/' in p {
      UnusualHasNoParent(g, Released(g, v, e), p);
    } else {
      SlashlessStays(g, v, b, p, path, x, e);
    }
  }
}
