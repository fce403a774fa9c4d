/** fat_mkdir. */
module FatMkdir {
  import opened Basics
  import opened FatLayout
  import opened FatView
  import opened FatInv
  import opened FatSteps
  import opened FatVolume
  import opened FatAlloc
  import opened FatDir
  import opened FatGrow
  import opened FatData
  import opened FatCreate

  // ----- the first sector of a new directory -----

  function DotName(): (n: seq<byte>) ensures |n| == 11 { [0x2E] + seq(10, _ => 0x20) }

  function DotDotName(): (n: seq<byte>) ensures |n| == 11 { [0x2E, 0x2E] + seq(9, _ => 0x20) }

  /** "." for the directory itself, ".." for its parent, and free slots. */
  function DotSector(self: nat, parent: nat): Sector
    requires self < 0x1_0000_0000 && parent < 0x1_0000_0000
  {
    MakeSlot(DotName(), Ent(0x10, self, 0)) + MakeSlot(DotDotName(), Ent(0x10, parent, 0)) + seq(448, _ => 0)
  }

  lemma DotSlots(self: nat, parent: nat, i: nat)
    requires self < 0x1_0000_0000 && parent < 0x1_0000_0000 && i < 16
    ensures var s := BufSlot(DotSector(self, parent), i);
            if i < 2 then Dot(s) && !IsVolumeLabel(s) else s[0] == 0
  {
    var a, b := MakeSlot(DotName(), Ent(0x10, self, 0)), MakeSlot(DotDotName(), Ent(0x10, parent, 0));
    var d := DotSector(self, parent);
    if i == 0 {
      assert BufSlot(d, i) == a;
      assert a[1] == a[..11][1];
    } else if i == 1 {
      assert BufSlot(d, i) == b;
      assert b[1] == b[..11][1] && b[2] == b[..11][2];
    }
  }

  lemma OneCluster(g: Geo, c: Cluster)
    ensures ChainSecs(g, [c]) == ClusterSecs(g, c)
  {
    assert [c][..0] == [] && ChainSecs(g, []) == [];
  }

  lemma FilledAt(g: Geo, area: seq<Sector>, c: Cluster, first: Sector, s: nat)
    requires |area| == g.AreaSize() && g.InData(c) && s < g.spc
    ensures g.SecOf(c, 0) + s < |area|
    ensures Fill(g, area, c, first, g.spc)[g.SecOf(c, 0) + s] == if s == 0 then first else Zero()
  {
    SecOfInRange(g, c, s);
  }

  /** The sectors of a cluster filled with `first` and zeros. */
  lemma FilledCluster(g: Geo, area: seq<Sector>, c: Cluster, first: Sector)
    requires |area| == g.AreaSize() && g.InData(c)
    ensures var area', secs := Fill(g, area, c, first, g.spc), ChainSecs(g, [c]);
      && |secs| == g.spc && InArea(area', secs)
      && forall j :: 0 <= j < |secs| ==> area'[secs[j]] == if j == 0 then first else Zero()
  {
    hide ChainSecs;
    OneCluster(g, c);
    var area', secs := Fill(g, area, c, first, g.spc), ClusterSecs(g, c);
    forall j | 0 <= j < |secs|
      ensures secs[j] < |area'| && area'[secs[j]] == if j == 0 then first else Zero()
    {
      FilledAt(g, area, c, first, j);
    }
  }

  /** The slots of a new directory in cluster `c`: ".", which is itself, "..", which is `parent`, and free ones. */
  ghost predicate DotsIn(g: Geo, v: Vol, c: nat, parent: nat) {
    var secs := DirSecs(g, v.fat, c);
    && |secs| == g.spc && InArea(v.area, secs)
    && forall k :: 0 <= k < 16 * g.spc ==>
         var s := Slot(v.area, secs, k);
         if k == 0 then Fresh(s, [0x2E] + [0x20, 0x20, 0x20, 0x20, 0x20, 0x20, 0x20, 0x20, 0x20, 0x20], Ent(0x10, c, 0))
         else if k == 1 then
           Fresh(s, [0x2E, 0x2E] + [0x20, 0x20, 0x20, 0x20, 0x20, 0x20, 0x20, 0x20, 0x20], Ent(0x10, parent, 0))
         else forall i :: 0 <= i < 32 ==> s[i] == 0
  }

  lemma DotNames()
    ensures DotName() == [0x2E] + [0x20, 0x20, 0x20, 0x20, 0x20, 0x20, 0x20, 0x20, 0x20, 0x20]
    ensures DotDotName() == [0x2E, 0x2E] + [0x20, 0x20, 0x20, 0x20, 0x20, 0x20, 0x20, 0x20, 0x20]
  {
  }

  /** The sixteen slots of that sector. */
  lemma DotSectorSlots(self: nat, parent: nat, i: nat)
    requires self < 0x1_0000_0000 && parent < 0x1_0000_0000 && i < 16
    ensures var s := BufSlot(DotSector(self, parent), i);
      if i == 0 then Fresh(s, DotName(), Ent(0x10, self, 0))
      else if i == 1 then Fresh(s, DotDotName(), Ent(0x10, parent, 0))
      else forall j :: 0 <= j < 32 ==> s[j] == 0
  {
    hide Fresh, MakeSlot;
    var a, b := MakeSlot(DotName(), Ent(0x10, self, 0)), MakeSlot(DotDotName(), Ent(0x10, parent, 0));
    var d := DotSector(self, parent);
    MakeSlotFresh(DotName(), Ent(0x10, self, 0));
    MakeSlotFresh(DotDotName(), Ent(0x10, parent, 0));
    if i == 0 {
      assert BufSlot(d, i) == a;
    } else if i == 1 {
      assert BufSlot(d, i) == b;
    }
  }

  /** On a card where that cluster is a chain of its own, the directory has these slots. */
  lemma DotsWritten(g: Geo, v: Vol, area: seq<Sector>, c: Cluster, parent: nat)
    requires g.Ok() && Shape(g, v) && |area| == g.AreaSize() && g.InData(c) && c < 0x1_0000_0000
    requires parent < 0x1_0000_0000 && IsChain(g, v.fat, [c])
    requires AgreeOn(Fill(g, area, c, DotSector(c, parent), g.spc), v.area, ChainSecs(g, [c]))
    ensures DotsIn(g, v, c, parent)
  {
    hide Fill, ChainSecs, DotSector, Fresh, IsChain;
    var secs := DirSecs(g, v.fat, c);
    ChainOfChain(g, v.fat, [c]);
    FilledCluster(g, area, c, DotSector(c, parent));
    DotNames();
    forall k | 0 <= k < 16 * g.spc
      ensures var s := Slot(v.area, secs, k);
        if k == 0 then Fresh(s, DotName(), Ent(0x10, c, 0))
        else if k == 1 then Fresh(s, DotDotName(), Ent(0x10, parent, 0))
        else forall i :: 0 <= i < 32 ==> s[i] == 0
    {
      SlotInSector(v.area, secs, k / 16, k % 16);
      assert 16 * (k / 16) + k % 16 == k;
      if k < 16 { DotSectorSlots(c, parent, k); }
    }
  }

  /** A cluster filled with that sector and zeros holds no entries. */
  lemma NewDirEmpty(g: Geo, area: seq<Sector>, c: Cluster, parent: nat)
    requires g.Ok() && |area| == g.AreaSize() && g.InData(c) && c < 0x1_0000_0000 && parent < 0x1_0000_0000
    ensures var area', secs := Fill(g, area, c, DotSector(c, parent), g.spc), ChainSecs(g, [c]);
            InArea(area', secs) && NoEntries(area', secs) && ZeroTail(area', secs)
  {
    hide Fill, ChainSecs, DotSector;
    var area', secs := Fill(g, area, c, DotSector(c, parent), g.spc), ChainSecs(g, [c]);
    FilledCluster(g, area, c, DotSector(c, parent));
    forall k | 0 <= k < 16 * |secs|
      ensures if k < 2 then Dot(Slot(area', secs, k)) && !IsVolumeLabel(Slot(area', secs, k))
              else Slot(area', secs, k)[0] == 0
    {
      SlotInSector(area', secs, k / 16, k % 16);
      assert 16 * (k / 16) + k % 16 == k;
      if k < 16 { DotSlots(c, parent, k); }
    }
  }

  // ----- what mkdir promises -----

  ghost predicate DirFits(g: Geo, v: Vol, x: nat)
    requires g.Ok() && Shape(g, v) && InArea(v.area, DirSecs(g, v.fat, x))
  {
    var free := FreeClusters(g, v.fat);
    free > 0 && (HasRoom(g, v, x) || (!IsRoot16(g, x) && free > 1))
  }

  /**
   What fat_mkdir promises in the directory `x`. A cluster that was taken when the entry finds no room stays
   taken, though nothing refers to it.
   */
  ghost predicate MadeIn(g: Geo, v: Vol, b: Book, v': Vol, b': Book, x: nat, n: Name, st: Status)
    requires g.Ok() && Shape(g, v) && Shape(g, v') && InArea(v.area, DirSecs(g, v.fat, x))
  {
    && (st == Ok || st == NoSpace)
    && (st == Ok <==> DirFits(g, v, x))
    && (st == Ok ==>
          && Same(g, v, v', b.dirs, {(x, n)})
          && Entry(g, v', x, n).Some?
          && var e := Entry(g, v', x, n).value;
          && e.attr == 0x10 && e.size == 0 && e.head !in b.dirs && b'.dirs == b.dirs + {e.head}
          && (forall m: Name :: Entry(g, v', e.head, m).None?)
          && FreshAt(g, v', x, n, e) && DotsIn(g, v', e.head, x))
    && (st == NoSpace ==>
          && Same(g, v, v', b.dirs, {}) && b'.dirs == b.dirs
          && var free := FreeClusters(g, v.fat);
          FreeClusters(g, v'.fat) == if free == 0 then 0 else free - 1)
  }

  /** The volume once the new directory is on the card, in cluster `c`, but not named anywhere. */
  function WithDots(g: Geo, v: Vol, c: Cluster, x: nat): Vol
    requires c < |v.fat| && c < 0x1_0000_0000 && x < 0x1_0000_0000
  {
    Vol(v.fat[c := g.Eoc()], Fill(g, v.area, c, DotSector(c, x), g.spc))
  }

  lemma NewDirOnCard(g: Geo, v: Vol, b: Book, c: Cluster, x: nat)
    requires Inv(g, v, b) && g.InData(c) && v.fat[c] == 0 && c < 0x1_0000_0000 && x < 0x1_0000_0000
    ensures var v1 := WithDots(g, v, c, x);
            && Inv(g, v1, b) && Same(g, v, v1, b.dirs, {}) && Untouched(g, b.chains, v, v1)
            && IsChain(g, v1.fat, [c]) && Unowned(b, c)
            && FreeClusters(g, v1.fat) == FreeClusters(g, v.fat) - 1
  {
    var v0 := v.(fat := v.fat[c := g.Eoc()]);
    var v1 := WithDots(g, v, c, x);
    TakeCluster(g, v, b, c);
    FreeCountSet(v.fat, g.clusters + 2, c, g.Eoc());
    SetUntouched(g, v, v, b, c, g.Eoc());
    FillUntouched(g, v0, b.chains, c, DotSector(c, x), g.spc);
    UntouchedTrans(g, b.chains, v, v0, v1);
    hide Untouched, DotSector, Fill;
    OffBook(g, v, b, v1);
  }

  function MkdirBook(b: Book, c: Cluster): Book {
    b.(chains := b.chains[c := [c]], dirs := b.dirs + {c})
  }

  lemma NewDirReady(g: Geo, b: Book, c: Cluster)
    requires c in b.chains && c !in b.owner && c != g.rootCluster && c in b.dirs && 0 < c < 0x1_0000_0000
    ensures EntReady(g, b, Ent(0x10, c, 0))
  {
    hide ChainSecs;
  }

  /** The new directory enters the book. */
  lemma AdoptNewDir(g: Geo, v: Vol, b: Book, c: Cluster, x: nat)
    requires Inv(g, v, b) && g.InData(c) && v.fat[c] == 0 && c < 0x1_0000_0000 && x < 0x1_0000_0000
    ensures var v1 := WithDots(g, v, c, x);
            && Inv(g, v1, MkdirBook(b, c)) && EntReady(g, MkdirBook(b, c), Ent(0x10, c, 0)) && c !in b.dirs
            && forall m: Name :: Entry(g, v1, c, m).None?
  {
    hide Inv, Untouched, Same, Unowned, IsChain, Fill, DotSector, Entry, NoEntries, ZeroTail, InArea, FreeClusters,
      FatOk, EntReady, ChainSecs;
    InvRoot(g, v, b);
    InvTable(g, v, b);
    NewDirOnCard(g, v, b, c, x);
    var v1, b1 := WithDots(g, v, c, x), b.(chains := b.chains[c := [c]]);
    AdoptChain(g, v1, b, [c]);
    FreshHead(g, v, b, c);
    NewDirEmpty(g, v.area, c, x);
    AdoptDir(g, v1, b1, c);
    NewDirReady(g, MkdirBook(b, c), c);
    forall m: Name ensures Entry(g, v1, c, m).None? {
      NoEntriesNone(g, v1, MkdirBook(b, c), c, m);
    }
  }

  lemma NoEntriesNone(g: Geo, v: Vol, b: Book, x: nat, m: Name)
    requires Inv(g, v, b) && x in b.dirs && x in b.chains && !IsRoot16(g, x)
    requires InArea(v.area, ChainSecs(g, b.chains[x])) && NoEntries(v.area, ChainSecs(g, b.chains[x]))
    ensures Entry(g, v, x, m).None?
  {
    assert forall k :: 0 <= k < 16 * |Secs(g, b, x)| ==> !Proper(Slot(v.area, Secs(g, b, x), k));
    var k := EntryFacts(g, v, b, x, m);
  }

  /** Writes "." and ".." into the first sector of cluster `c` and zeros into the others. */
  method WriteDots(fs: Volume, c: Cluster, parent: nat)
    requires fs.Valid() && fs.g.InData(c) && c < 0x1_0000_0000 && parent < 0x1_0000_0000
    modifies fs.Arrays(), fs`vol, fs`hist
    ensures fs.Valid() && Shape(fs.g, old(fs.vol))
    ensures fs.vol == old(fs.vol).(area := Fill(fs.g, old(fs.vol).area, c, DotSector(c, parent), fs.g.spc))
    ensures old(fs.hist) <= fs.hist
    ensures forall k :: |old(fs.hist)| <= k < |fs.hist| ==>
      Filling(fs.g, fs.hist[k], old(fs.vol), c, DotSector(c, parent))
  {
    hide Volume.Valid, View, Fill, Filling;
    fs.ClearBuffer();
    fs.CopyIn(0, MakeSlot(DotName(), Ent(0x10, c, 0)));
    fs.CopyIn(32, MakeSlot(DotDotName(), Ent(0x10, parent, 0)));
    assert fs.buf[..] == DotSector(c, parent);
    InitCluster(fs, c);
  }

  lemma DotsKept(g: Geo, v: Vol, b: Book, c: Cluster, first: Sector, h: seq<Vol>, h1: seq<Vol>, h2: seq<Vol>)
    requires Inv(g, v, b) && g.InData(c) && v.fat[c] == 0
    requires var v0 := v.(fat := v.fat[c := g.Eoc()]);
      h1 == h + [v0, v0] && h1 <= h2 && forall k :: |h1| <= k < |h2| ==> Filling(g, h2[k], v0, c, first)
    ensures h <= h2 && KeptSince(g, v, b.dirs, {}, h2, |h|)
  {
    var v0 := v.(fat := v.fat[c := g.Eoc()]);
    TakeCluster(g, v, b, c);
    SetUntouched(g, v, v, b, c, g.Eoc());
    forall k | |h| <= k < |h2| ensures Untouched(g, b.chains, v, h2[k]) {
      if k < |h1| {
        assert h2[k] == h1[k];
      } else {
        var n: nat :| n <= g.spc && h2[k] == v0.(area := Fill(g, v0.area, c, first, n));
        FillUntouched(g, v0, b.chains, c, first, n);
        UntouchedTrans(g, b.chains, v, v0, h2[k]);
      }
    }
    KeptFromUntouched(g, v, b, h2, |h|);
  }

  lemma KeptSubset(g: Geo, v: Vol, dirs: set<nat>, dirs': set<nat>, h: seq<Vol>, from: nat)
    requires KeptSince(g, v, dirs', {}, h, from) && dirs <= dirs'
    ensures KeptSince(g, v, dirs, {}, h, from)
  {
    forall k | from <= k < |h| ensures Keeps(g, v, h[k], dirs, {}) {
      assert Keeps(g, v, h[k], dirs', {});
    }
  }

  lemma MkdirFits(g: Geo, v: Vol, b: Book, c: Cluster, h1: seq<Vol>, v2: Vol, b2: Book, h2: seq<Vol>,
                  x: nat, n: Name, st: Status)
    requires Inv(g, v, b) && x in b.dirs && x < 0x1_0000_0000
    requires g.InData(c) && v.fat[c] == 0 && c < 0x1_0000_0000
    requires AppendSpec(g, WithDots(g, v, c, x), MkdirBook(b, c), h1, v2, b2, h2, x, n, Ent(0x10, c, 0), st)
    ensures InArea(v.area, DirSecs(g, v.fat, x))
    ensures st == Ok <==> DirFits(g, v, x)
  {
    NewDirOnCard(g, v, b, c, x);
    RoomCarries(g, v, b, WithDots(g, v, c, x), x);
    FreeCountBound(v.fat, g.clusters + 2);
    hide Inv, HasRoom, InArea, FreeClusters, Same, Untouched, WithDots, Added, KeptSince;
  }

  lemma MkdirMade(g: Geo, v: Vol, b: Book, c: Cluster, v2: Vol, b2: Book, x: nat, n: Name)
    requires Inv(g, v, b) && x in b.dirs && x < 0x1_0000_0000
    requires g.InData(c) && v.fat[c] == 0 && c < 0x1_0000_0000
    requires Added(g, WithDots(g, v, c, x), MkdirBook(b, c), v2, b2, x, n, Ent(0x10, c, 0))
    ensures Shape(g, v2) && Same(g, v, v2, b.dirs, {(x, n)}) && c !in b.dirs && b2.dirs == b.dirs + {c}
    ensures Entry(g, v2, x, n) == Some(Ent(0x10, c, 0)) && forall m: Name :: Entry(g, v2, c, m).None?
    ensures FreshAt(g, v2, x, n, Ent(0x10, c, 0))
  {
    hide FreshAt, ElseAgrees;
    var v1 := WithDots(g, v, c, x);
    NewDirOnCard(g, v, b, c, x);
    AdoptNewDir(g, v, b, c, x);
    hide Inv, EntReady, WithDots, Untouched, Same;
    SameWeaken(g, v1, v2, b.dirs + {c}, b.dirs, {(x, n)}, {(x, n)});
    SameTrans(g, v, v1, v2, b.dirs, {}, {(x, n)});
    NothingMore({(x, n)});
    StillEmpty(g, v1, v2, MkdirBook(b, c).dirs, x, n, c);
  }

  /** The entry for the new directory is written without touching its cluster. */
  lemma DotsStay(g: Geo, v: Vol, b: Book, c: Cluster, v2: Vol, b2: Book, x: nat, n: Name)
    requires Inv(g, v, b) && x in b.dirs && x < 0x1_0000_0000
    requires g.InData(c) && v.fat[c] == 0 && c < 0x1_0000_0000
    requires Added(g, WithDots(g, v, c, x), MkdirBook(b, c), v2, b2, x, n, Ent(0x10, c, 0))
    ensures DotsIn(g, v2, c, x)
  {
    hide Inv, Same, FreshAt, Entry, DotsIn, Fill, ChainSecs, AgreeOn;
    InvRoot(g, v, b);
    InvRoot(g, v2, b2);
    AdoptNewDir(g, v, b, c, x);
    assert b2.chains[c] == [c];
    BookedChain(g, v2, b2, c);
    DotsWritten(g, v2, v.area, c, x);
  }

  lemma BookedChain(g: Geo, v: Vol, b: Book, h: nat)
    requires Inv(g, v, b) && h in b.chains
    ensures IsChain(g, v.fat, b.chains[h])
  {
    hide FatOk, DirOk;
  }

  lemma StillEmpty(g: Geo, v: Vol, v': Vol, dirs: set<nat>, x: nat, n: Name, c: nat)
    requires Same(g, v, v', dirs, {(x, n)}) && c in dirs && c != x && forall m: Name :: Entry(g, v, c, m).None?
    ensures forall m: Name :: Entry(g, v', c, m).None?
  {
    forall m: Name ensures Entry(g, v', c, m).None? {
      assert Entry(g, v', c, m) == Entry(g, v, c, m);
    }
  }

  lemma MkdirDone(g: Geo, v: Vol, b: Book, c: Cluster, h1: seq<Vol>, v2: Vol, b2: Book, h2: seq<Vol>,
                  x: nat, n: Name, st: Status)
    requires Inv(g, v, b) && x in b.dirs && x < 0x1_0000_0000
    requires g.InData(c) && v.fat[c] == 0 && c < 0x1_0000_0000
    requires AppendSpec(g, WithDots(g, v, c, x), MkdirBook(b, c), h1, v2, b2, h2, x, n, Ent(0x10, c, 0), st)
    ensures InArea(v.area, DirSecs(g, v.fat, x))
    ensures Shape(g, v2) && MadeIn(g, v, b, v2, if st == Ok then b2 else b, x, n, st)
    ensures Inv(g, v2, if st == Ok then b2 else b)
  {
    hide DirFits, KeptSince, FreeClusters, HasRoom, FreshAt, DotsIn, ElseAgrees;
    MkdirFits(g, v, b, c, h1, v2, b2, h2, x, n, st);
    NewDirOnCard(g, v, b, c, x);
    FreeCountBound(v.fat, g.clusters + 2);
    if st == Ok {
      MkdirMade(g, v, b, c, v2, b2, x, n);
      DotsStay(g, v, b, c, v2, b2, x, n);
    }
  }

  /** The making part of fat_mkdir, in a directory that has no entry called `n`. */
  method MakeIn(fs: Volume, x: nat, n: Name) returns (st: Status)
    requires Sound(fs) && x in fs.book.dirs && Entry(fs.g, fs.vol, x, n).None?
    modifies fs.Arrays(), fs`vol, fs`hist, fs`cacheNext, fs`book
    ensures fs.Valid() && InArea(old(fs.vol).area, DirSecs(fs.g, old(fs.vol).fat, x))
    ensures MadeIn(fs.g, old(fs.vol), old(fs.book), fs.vol, fs.book, x, n, st)
    ensures SoundStep(fs.g, old(fs.vol), old(fs.book), old(fs.hist), fs.vol, fs.book, fs.hist, {})
  {
    hide Volume.Valid, Inv, Entry, Same, AppendSpec, MadeIn, DotSector, FatOk;
    ghost var v, b, h := fs.vol, fs.book, fs.hist;
    DirIdBound(fs.g, v, b, x);
    var c := AllocCluster(fs);
    if c == 0 {
      NoDirSpace(fs.g, v, b, x, n);
      return NoSpace;
    }
    ClusterBound(fs.g, c);
    ghost var h1 := fs.hist;
    WriteDots(fs, c, x);
    DotsKept(fs.g, v, b, c, DotSector(c, x), h, h1, fs.hist);
    AdoptNewDir(fs.g, v, b, c, x);
    NewDirEntries(fs.g, v, b, c, x, n);
    ghost var v1, h2 := fs.vol, fs.hist;
    assert v1 == WithDots(fs.g, v, c, x);
    fs.SetBook(MkdirBook(b, c));
    st := AppendDirent(fs, x, n, Ent(0x10, c, 0));
    MkdirDone(fs.g, v, b, c, h2, fs.vol, fs.book, fs.hist, x, n, st);
    MkdirKept(fs.g, v, b, h, v1, c, h2, fs.vol, fs.book, fs.hist, x, n, st);
    if st != Ok {
      fs.SetBook(b);
    }
  }

  lemma ClusterBound(g: Geo, c: nat)
    requires g.Ok() && g.InData(c)
    ensures c < 0x1_0000_0000
  {
  }

  lemma DirIdBound(g: Geo, v: Vol, b: Book, x: nat)
    requires Inv(g, v, b) && x in b.dirs
    ensures x < 0x1_0000_0000 && FatOk(g, v.fat) && InArea(v.area, DirSecs(g, v.fat, x))
  {
    if x in b.chains { HeadsAreClusters(g, v.fat, b.chains, x); }
    DirSecsInArea(g, v, x);
  }

  lemma NoDirSpace(g: Geo, v: Vol, b: Book, x: nat, n: Name)
    requires Inv(g, v, b) && x in b.dirs && FreeClusters(g, v.fat) == 0
    ensures InArea(v.area, DirSecs(g, v.fat, x)) && MadeIn(g, v, b, v, b, x, n, NoSpace)
  {
    SameSelf(g, v, b);
    DirSecsInArea(g, v, x);
  }

  lemma NewDirEntries(g: Geo, v: Vol, b: Book, c: Cluster, x: nat, n: Name)
    requires Inv(g, v, b) && x in b.dirs && g.InData(c) && v.fat[c] == 0 && c < 0x1_0000_0000 && x < 0x1_0000_0000
    ensures Entry(g, WithDots(g, v, c, x), x, n) == Entry(g, v, x, n)
    ensures Keeps(g, v, WithDots(g, v, c, x), b.dirs, {})
  {
    NewDirOnCard(g, v, b, c, x);
  }

  lemma MkdirKept(g: Geo, v: Vol, b: Book, h: seq<Vol>, v1: Vol, c: Cluster, h1: seq<Vol>, v2: Vol, b2: Book,
                  h2: seq<Vol>, x: nat, n: Name, st: Status)
    requires h <= h1 && KeptSince(g, v, b.dirs, {}, h1, |h|) && Keeps(g, v, v1, b.dirs, {})
    requires AppendSpec(g, v1, MkdirBook(b, c), h1, v2, b2, h2, x, n, Ent(0x10, c, 0), st)
    ensures h <= h2 && KeptSince(g, v, b.dirs, {}, h2, |h|)
  {
    KeptSubset(g, v1, b.dirs, b.dirs + {c}, h2, |h1|);
    KeptTrans(g, v, v1, b.dirs, {}, h1, h2, |h|);
  }

  // ----- fat_mkdir -----

  ghost predicate MkdirSpec(g: Geo, v: Vol, b: Book, v': Vol, b': Book, path: seq<Name>, st: Status)
    requires g.Ok() && Shape(g, v) && Shape(g, v') && path != []
  {
    if Resolve(g, v, path).Found? then st == Exists && v' == v && b' == b
    else match ParentOf(g, v, path)
      case NoDir(err) => st == err && v' == v && b' == b
      case Dir(x) =>
        && x in b.dirs && InArea(v.area, DirSecs(g, v.fat, x))
        && MadeIn(g, v, b, v', b', x, Leaf(path), st)
  }

  method FatMkdir(fs: Volume, path: seq<Name>) returns (st: Status)
    requires Sound(fs) && path != []
    modifies fs.Arrays(), fs`vol, fs`hist, fs`cacheNext, fs`book
    ensures Sound(fs)
    ensures MkdirSpec(fs.g, old(fs.vol), old(fs.book), fs.vol, fs.book, path, st)
    ensures SoundStep(fs.g, old(fs.vol), old(fs.book), old(fs.hist), fs.vol, fs.book, fs.hist, {})
  {
    hide Volume.Valid, Inv, MadeIn, FatOk, Walkable, MkdirSpec, SoundStep;
    ghost var v, b, h := fs.vol, fs.book, fs.hist;
    PathFacts(fs.g, v, b, path);
    var existing := ResolvePath(fs, path);
    if existing.Found? {
      MkdirNothing(fs.g, v, b, h, path, Exists);
      return Exists;
    }
    var parent := ResolveParent(fs, path);
    if parent.NoDir? {
      MkdirNothing(fs.g, v, b, h, path, parent.err);
      return parent.err;
    }
    st := MakeIn(fs, parent.id, Leaf(path));
    MkdirThere(fs.g, v, b, h, fs.vol, fs.book, fs.hist, path, st);
  }

  lemma MkdirNothing(g: Geo, v: Vol, b: Book, h: seq<Vol>, path: seq<Name>, st: Status)
    requires Inv(g, v, b) && path != []
    requires if Resolve(g, v, path).Found? then st == Exists else ParentOf(g, v, path) == NoDir(st)
    ensures MkdirSpec(g, v, b, v, b, path, st) && SoundStep(g, v, b, h, v, b, h, {})
  {
    hide MadeIn;
  }

  lemma MkdirThere(g: Geo, v: Vol, b: Book, h: seq<Vol>, v': Vol, b': Book, h': seq<Vol>, path: seq<Name>, st: Status)
    requires Inv(g, v, b) && path != [] && !Resolve(g, v, path).Found? && ParentOf(g, v, path).Dir? && Shape(g, v')
    requires var x := ParentOf(g, v, path).id;
      x in b.dirs && InArea(v.area, DirSecs(g, v.fat, x)) && MadeIn(g, v, b, v', b', x, Leaf(path), st)
    requires SoundStep(g, v, b, h, v', b', h', {})
    ensures MkdirSpec(g, v, b, v', b', path, st) && Inv(g, v', b')
  {
    hide MadeIn;
  }
}
