/** Adding a directory entry, growing the directory by a cluster when it is full. */
module FatGrow {
  import opened Basics
  import opened FatLayout
  import opened FatView
  import opened FatInv
  import opened FatSteps
  import opened FatVolume
  import opened FatAlloc
  import opened FatDir

  // ----- filling a fresh cluster -----

  function Zero(): Sector { seq(512, _ => 0) }

  function FilledSector(g: Geo, area: seq<Sector>, c: Cluster, first: Sector, n: nat, a: nat): Sector
    requires a < |area|
  {
    if g.SecOf(c, 0) <= a < g.SecOf(c, 0) + n then (if a == g.SecOf(c, 0) then first else Zero()) else area[a]
  }

  /** The area after the first `n` sectors of cluster `c` are written: `first`, then zeros. */
  function Fill(g: Geo, area: seq<Sector>, c: Cluster, first: Sector, n: nat): (r: seq<Sector>)
    ensures |r| == |area|
  {
    seq(|area|, a requires 0 <= a < |area| => FilledSector(g, area, c, first, n, a))
  }

  lemma FillUntouched(g: Geo, v: Vol, chains: map<nat, seq<Cluster>>, c: Cluster, first: Sector, n: nat)
    requires Shape(g, v) && FatOk(g, v.fat) && g.InData(c) && n <= g.spc
    requires forall h :: h in chains ==> c !in chains[h]
    ensures Untouched(g, chains, v, v.(area := Fill(g, v.area, c, first, n)))
  {
    var area' := Fill(g, v.area, c, first, n);
    assert g.SecOf(c, 0) >= g.rootSecs;
    assert AgreeOn(v.area, area', RootSecs(g));
    forall h | h in chains ensures AgreeOn(v.area, area', ChainSecs(g, chains[h])) {
      forall j | 0 <= j < |ChainSecs(g, chains[h])| && ChainSecs(g, chains[h])[j] < |v.area|
        ensures area'[ChainSecs(g, chains[h])[j]] == v.area[ChainSecs(g, chains[h])[j]]
      {
        var a := ChainSecs(g, chains[h])[j];
        if g.SecOf(c, 0) <= a < g.SecOf(c, 0) + n {
          FreshCluster(g, chains[h], c, a - g.SecOf(c, 0), j);
        }
      }
    }
  }

  /** `v` is `before` with some of the sectors of cluster `c` written. */
  ghost predicate Filling(g: Geo, v: Vol, before: Vol, c: Cluster, first: Sector) {
    exists n: nat :: n <= g.spc && v == before.(area := Fill(g, before.area, c, first, n))
  }

  /** Writes the buffer to the first sector of cluster `c` and zeros to its other sectors. */
  method InitCluster(fs: Volume, c: Cluster)
    requires fs.Valid() && fs.g.InData(c)
    modifies fs.Arrays(), fs`vol, fs`hist
    ensures fs.Valid() && Shape(fs.g, old(fs.vol))
    ensures fs.vol == old(fs.vol).(area := Fill(fs.g, old(fs.vol).area, c, old(fs.buf[..]), fs.g.spc))
    ensures old(fs.hist) <= fs.hist
    ensures forall k :: |old(fs.hist)| <= k < |fs.hist| ==>
      Filling(fs.g, fs.hist[k], old(fs.vol), c, old(fs.buf[..]))
  {
    ghost var first := fs.buf[..];
    ghost var v := fs.vol;
    assert v.area == Fill(fs.g, v.area, c, first, 0);
    for s := 0 to fs.g.spc
      invariant fs.Valid() && fs.vol == v.(area := Fill(fs.g, v.area, c, first, s))
      invariant fs.buf[..] == if s == 0 then first else Zero()
      invariant old(fs.hist) <= fs.hist
      invariant forall k :: |old(fs.hist)| <= k < |fs.hist| ==>
        Filling(fs.g, fs.hist[k], v, c, first)
    {
      SecOfInRange(fs.g, c, s);
      fs.WriteSector(fs.g.AreaLba() + fs.g.SecOf(c, 0) + s);
      assert fs.vol.area == Fill(fs.g, v.area, c, first, s + 1);
      if s == 0 {
        fs.ClearBuffer();
      }
    }
  }

  // ----- adding an entry -----

  function Own(b: Book, h: nat, x: nat, k: nat): Book {
    b.(owner := if h == 0 then b.owner else b.owner[h := (x, k)])
  }

  /** An entry that may be added: its chain is in the book and nobody else names it. */
  ghost predicate EntReady(g: Geo, b: Book, e: Ent) {
    && ValidEnt(e) && e.attr / 8 % 2 == 0
    && (e.head != 0 ==> e.head in b.chains && e.head !in b.owner && e.head != g.rootCluster)
    && (e.IsDir() ==> e.head != 0 && e.head in b.dirs)
    && (!e.IsDir() && e.head != 0 ==> e.head !in b.dirs && e.size <= 512 * |ChainSecs(g, b.chains[e.head])|)
    && (!e.IsDir() && e.head == 0 ==> e.size == 0)
  }

  /** A directory sector that holds one entry. */
  function FirstSector(n: Name, e: Ent): Sector
    requires ValidEnt(e)
  {
    MakeSlot(n, e) + seq(480, _ => 0)
  }

  /** The book after directory `x` grew by `nc` and took the entry `e` in its first new slot. */
  function GrownBook(g: Geo, b: Book, x: nat, nc: Cluster, e: Ent): Book
    requires x in b.chains
  {
    Own(Grown(b, x, nc), e.head, x, 16 * |ChainSecs(g, b.chains[x])|)
  }

  /** A slot as a new entry leaves it: its name, what it says, and zeros in the fields that the driver does not use. */
  predicate Fresh(s: seq<byte>, n: seq<byte>, e: Ent)
    requires |s| == 32
  {
    && s[..11] == n && Says(s, e)
    && (forall i :: 12 <= i < 20 ==> s[i] == 0) && (forall i :: 22 <= i < 26 ==> s[i] == 0)
  }

  lemma MakeSlotFresh(n: seq<byte>, e: Ent)
    requires |n| == 11 && ValidEnt(e)
    ensures Fresh(MakeSlot(n, e), n, e)
  {
    EntSays(MakeSlot(n, e), e);
    hide Says, EntOf;
  }

  /** The slot that a lookup of `n` in directory `x` finds is that of a new entry `e`. */
  ghost predicate FreshAt(g: Geo, v: Vol, x: nat, n: Name, e: Ent) {
    var secs := DirSecs(g, v.fat, x);
    InArea(v.area, secs) && exists k :: FoundAt(v.area, secs, n, k) && Fresh(Slot(v.area, secs, k), n, e)
  }

  lemma WrittenFresh(g: Geo, v: Vol, x: nat, n: Name, e: Ent)
    requires ValidEnt(e) && WrittenAt(g, v, x, n, MakeSlot(n, e))
    ensures FreshAt(g, v, x, n, e)
  {
    hide Fresh, FoundAt, MakeSlot;
    MakeSlotFresh(n, e);
  }

  lemma ReadyToOwn(g: Geo, v: Vol, b: Book, x: nat, k: nat, n: Name, e: Ent)
    requires Inv(g, v, b) && EntReady(g, b, e)
    ensures ValidEnt(e) && BookOk(g, Own(b, e.head, x, k)) && Reowned(b, Own(b, e.head, x, k), x, k)
    ensures SlotOk(g, Own(b, e.head, x, k), x, k, MakeSlot(n, e))
  {
    hide FatOk, ChainsOk, DirOk, ChainSecs;
    var s := MakeSlot(n, e);
    assert s[0] == n[0] && !IsVolumeLabel(s);
  }

  lemma DeadIsExempt(x: nat, s: seq<byte>, ex: set<(nat, Name)>)
    requires |s| == 32 && !Live(s)
    ensures NamesExempt(x, s, ex)
  {
  }

  lemma AddEntry(g: Geo, v: Vol, b: Book, x: nat, k: nat, n: Name, e: Ent)
    requires Inv(g, v, b) && x in b.dirs && EntReady(g, b, e) && Entry(g, v, x, n).None?
    requires InArea(v.area, Secs(g, b, x)) && k < 16 * |Secs(g, b, x)|
    requires !Live(Slot(v.area, Secs(g, b, x), k)) && NoZeroBefore(v.area, Secs(g, b, x), k)
    ensures var v' := v.(area := PutSlot(v.area, Secs(g, b, x), k, MakeSlot(n, e)));
            && Inv(g, v', Own(b, e.head, x, k)) && Same(g, v, v', b.dirs, {(x, n)})
            && Entry(g, v', x, n) == Some(e) && FreshAt(g, v', x, n, e)
  {
    hide FreshAt, WrittenAt, Inv, EntReady, Entry, Same, PutSlot, SlotOk, BookOk, Reowned, NewName, NamesExempt;
    InvParts(g, v, b);
    ReadyToOwn(g, v, b, x, k, n, e);
    var s := MakeSlot(n, e);
    DeadIsExempt(x, Slot(v.area, Secs(g, b, x), k), {(x, n)});
    AbsentIsNew(g, v, b, x, k, s, n);
    WriteEntry(g, v, b, x, k, s, n, Own(b, e.head, x, k), {(x, n)});
    WrittenFresh(g, v.(area := PutSlot(v.area, Secs(g, b, x), k, s)), x, n, e);
  }

  lemma SameTrans(g: Geo, v: Vol, v': Vol, v'': Vol, dirs: set<nat>, ex: set<(nat, Name)>, ex': set<(nat, Name)>)
    requires Same(g, v, v', dirs, ex) && Same(g, v', v'', dirs, ex')
    ensures Same(g, v, v'', dirs, ex + ex')
  {
    forall x, n: Name | x in dirs && (x, n) !in ex + ex'
      ensures Entry(g, v'', x, n) == Entry(g, v, x, n) && SameFile(g, v, v'', Entry(g, v, x, n))
    {
      assert Entry(g, v', x, n) == Entry(g, v, x, n);
    }
  }

  lemma SameKeeps(g: Geo, v: Vol, v': Vol, dirs: set<nat>, ex: set<(nat, Name)>, ex': set<(nat, Name)>)
    requires Same(g, v, v', dirs, ex)
    requires forall x, n: Name :: (x, n) in ex && (x, n) !in ex' && x in dirs ==> Entry(g, v, x, n).None?
    ensures Keeps(g, v, v', dirs, ex')
  {
  }

  /** A free cluster is in no chain. */
  lemma FreeIsUnowned(g: Geo, v: Vol, b: Book, c: nat)
    requires Inv(g, v, b) && g.InData(c) && v.fat[c] == 0
    ensures Unowned(b, c)
  {
    forall h | h in b.chains ensures c !in b.chains[h] {
      var ch := b.chains[h];
      assert IsChain(g, v.fat, ch);
      forall i | 0 <= i < |ch| ensures ch[i] != c {
        if i < |ch| - 1 { assert v.fat[ch[i]] == ch[i + 1]; }
      }
    }
  }

  /** Taking a free cluster as a chain of its own. */
  lemma TakeCluster(g: Geo, v: Vol, b: Book, c: nat)
    requires Inv(g, v, b) && g.InData(c) && v.fat[c] == 0
    ensures var v' := v.(fat := v.fat[c := g.Eoc()]);
            && Inv(g, v', b) && Same(g, v, v', b.dirs, {}) && Unowned(b, c) && g.IsEoc(v'.fat[c])
            && IsChain(g, v'.fat, [c])
  {
    FreeIsUnowned(g, v, b, c);
    SetUnowned(g, v, b, c, g.Eoc());
  }

  lemma InvHead(g: Geo, v: Vol, b: Book, h: nat)
    requires Inv(g, v, b) && h in b.chains
    ensures g.Ok() && Shape(g, v) && g.InData(h) && !IsRoot16(g, h) && b.chains[h] != []
  {
    HeadsAreClusters(g, v.fat, b.chains, h);
  }

  lemma NothingMore<T>(ex: set<T>)
    ensures {} + ex == ex
  {
  }

  /** A cluster is zeroed and then linked behind directory `x`. */
  lemma GrowZeroed(g: Geo, v: Vol, b: Book, x: nat, nc: Cluster)
    requires Inv(g, v, b) && x in b.dirs && x in b.chains
    requires g.InData(nc) && Unowned(b, nc) && g.IsEoc(v.fat[nc]) && Tail(b.chains[x]) < |v.fat|
    ensures var vb := Vol(v.fat[Tail(b.chains[x]) := nc], Fill(g, v.area, nc, Zero(), g.spc));
      && Inv(g, vb, Grown(b, x, nc)) && Same(g, v, vb, b.dirs, {})
      && var secs, secs' := ChainSecs(g, b.chains[x]), ChainSecs(g, b.chains[x] + [nc]);
      && InArea(v.area, secs) && InArea(vb.area, secs') && secs <= secs' && |secs| < |secs'|
      && (forall i :: 0 <= i < 16 * |secs| ==> Slot(vb.area, secs', i) == Slot(v.area, secs, i))
      && Slot(vb.area, secs', 16 * |secs|)[0] == 0
  {
    ZeroKeeps(g, v, b, nc);
    ZeroFilled(g, v.area, nc);
    GrownSlots(g, v, b, x, nc);
    hide Inv, Same, ZeroCluster, InArea;
    var va := v.(area := Fill(g, v.area, nc, Zero(), g.spc));
    GrowDir(g, va, b, x, nc);
    SameTrans(g, v, va, va.(fat := va.fat[Tail(b.chains[x]) := nc]), b.dirs, {}, {});
    NothingMore<(nat, Name)>({});
  }

  lemma ZeroKeeps(g: Geo, v: Vol, b: Book, nc: Cluster)
    requires Inv(g, v, b) && g.InData(nc) && Unowned(b, nc)
    ensures var va := v.(area := Fill(g, v.area, nc, Zero(), g.spc));
      && Inv(g, va, b) && Same(g, v, va, b.dirs, {})
      && forall h :: h in b.chains ==> AgreeOn(v.area, va.area, ChainSecs(g, b.chains[h]))
  {
    FillUntouched(g, v, b.chains, nc, Zero(), g.spc);
    OffBook(g, v, b, v.(area := Fill(g, v.area, nc, Zero(), g.spc)));
  }

  lemma SlotsAgree(area: seq<Sector>, area': seq<Sector>, secs: seq<nat>)
    requires InArea(area, secs) && AgreeOn(area, area', secs)
    ensures InArea(area', secs) && forall i :: 0 <= i < 16 * |secs| ==> Slot(area', secs, i) == Slot(area, secs, i)
  {
  }

  lemma GrowsLonger(g: Geo, v: Vol, b: Book, x: nat, nc: Cluster)
    requires Inv(g, v, b) && x in b.chains
    ensures |ChainSecs(g, b.chains[x])| < |ChainSecs(g, b.chains[x] + [nc])|
    ensures InArea(v.area, ChainSecs(g, b.chains[x])) && !IsRoot16(g, x)
  {
    hide DirOk, FatOk, InArea, ChainSecs;
    InvHead(g, v, b, x);
    DirSecsAreBooked(g, v, b, x);
    ChainSecsSnoc(g, b.chains[x], nc);
    ChainSecsLen(g, b.chains[x]);
    ChainSecsLen(g, b.chains[x] + [nc]);
  }

  lemma GrownSlots(g: Geo, v: Vol, b: Book, x: nat, nc: Cluster)
    requires Inv(g, v, b) && x in b.dirs && x in b.chains && g.InData(nc) && Unowned(b, nc)
    ensures var area' := Fill(g, v.area, nc, Zero(), g.spc);
      var secs, secs' := ChainSecs(g, b.chains[x]), ChainSecs(g, b.chains[x] + [nc]);
      && InArea(v.area, secs) && InArea(area', secs') && secs <= secs' && |secs| < |secs'|
      && (forall i :: 0 <= i < 16 * |secs| ==> Slot(area', secs', i) == Slot(v.area, secs, i))
      && Slot(area', secs', 16 * |secs|)[0] == 0
  {
    hide Inv, Unowned, Fill, InArea, ZeroCluster, AgreeOn, Slot;
    var va := v.(area := Fill(g, v.area, nc, Zero(), g.spc));
    ZeroKeeps(g, v, b, nc);
    ZeroFilled(g, v.area, nc);
    GrownDirSlots(g, va, b, x, nc);
    ChainSecsSnoc(g, b.chains[x], nc);
    GrowsLonger(g, v, b, x, nc);
    SlotsAgree(v.area, va.area, ChainSecs(g, b.chains[x]));
  }

  lemma ZeroFilled(g: Geo, area: seq<Sector>, nc: Cluster)
    ensures ZeroCluster(g, Fill(g, area, nc, Zero(), g.spc), nc)
  {
  }

  /** A zeroed cluster is linked behind the full directory `x` and takes the new entry in its first slot. */
  lemma GrowAndAdd(g: Geo, v: Vol, b: Book, x: nat, nc: Cluster, n: Name, e: Ent)
    requires Inv(g, v, b) && x in b.dirs && x in b.chains && EntReady(g, b, e) && Entry(g, v, x, n).None?
    requires g.InData(nc) && Unowned(b, nc) && g.IsEoc(v.fat[nc]) && Tail(b.chains[x]) < |v.fat|
    requires InArea(v.area, ChainSecs(g, b.chains[x]))
    requires NoZeroBefore(v.area, ChainSecs(g, b.chains[x]), 16 * |ChainSecs(g, b.chains[x])|)
    ensures var first := FirstSector(n, e);
            var v' := Vol(v.fat[Tail(b.chains[x]) := nc], Fill(g, v.area, nc, first, g.spc));
            && Inv(g, v', GrownBook(g, b, x, nc, e))
            && Same(g, v, v', b.dirs, {(x, n)}) && Entry(g, v', x, n) == Some(e) && FreshAt(g, v', x, n, e)
  {
    hide Inv, EntReady, PutSlot, Fill, FreshAt;
    InvHead(g, v, b, x);
    GrowZeroed(g, v, b, x, nc);
    var vb := Vol(v.fat[Tail(b.chains[x]) := nc], Fill(g, v.area, nc, Zero(), g.spc));
    GrowTail(g, v, b, vb, x, nc, n, e);
    FillPut(g, v.area, b.chains[x], nc, n, e);
    SameTrans(g, v, vb, Vol(vb.fat, Fill(g, v.area, nc, FirstSector(n, e), g.spc)), b.dirs,
              {}, {(x, n)});
    NothingMore({(x, n)});
  }

  lemma GrowTail(g: Geo, v: Vol, b: Book, vb: Vol, x: nat, nc: Cluster, n: Name, e: Ent)
    requires x in b.chains && !IsRoot16(g, x) && x in b.dirs && g.InData(nc)
    requires Inv(g, vb, Grown(b, x, nc)) && EntReady(g, b, e) && Entry(g, vb, x, n).None?
    requires var secs, secs' := ChainSecs(g, b.chains[x]), ChainSecs(g, b.chains[x] + [nc]);
      && secs <= secs' && |secs| < |secs'| && InArea(vb.area, secs')
      && (forall i :: 0 <= i < 16 * |secs| ==> Slot(vb.area, secs', i)[0] != 0)
      && Slot(vb.area, secs', 16 * |secs|)[0] == 0
    ensures var secs, secs' := ChainSecs(g, b.chains[x]), ChainSecs(g, b.chains[x] + [nc]);
      var v' := vb.(area := PutSlot(vb.area, secs', 16 * |secs|, MakeSlot(n, e)));
      && Inv(g, v', GrownBook(g, b, x, nc, e))
      && Same(g, vb, v', b.dirs, {(x, n)}) && Entry(g, v', x, n) == Some(e) && FreshAt(g, v', x, n, e)
  {
    hide FreshAt;
    ChainSecsPrefix(g, b.chains[x], b.chains[x] + [nc]);
    AddEntry(g, vb, Grown(b, x, nc), x, 16 * |ChainSecs(g, b.chains[x])|, n, e);
  }

  /** Putting the entry into the zeroed cluster is the same as writing its first sector with the entry in it. */
  lemma FillPut(g: Geo, area: seq<Sector>, ch: seq<Cluster>, nc: Cluster, n: Name, e: Ent)
    requires |area| == g.AreaSize() && g.InData(nc) && ValidEnt(e) && g.spc > 0
    ensures var secs, secs' := ChainSecs(g, ch), ChainSecs(g, ch + [nc]);
      && |secs| < |secs'| && secs'[|secs|] == g.SecOf(nc, 0) < |area|
      && PutSlot(Fill(g, area, nc, Zero(), g.spc), secs', 16 * |secs|, MakeSlot(n, e))
         == Fill(g, area, nc, FirstSector(n, e), g.spc)
  {
    ChainSecsSnoc(g, ch, nc);
    SecOfInRange(g, nc, 0);
    var z: Sector := Zero();
    assert Patch(z, 0, MakeSlot(n, e)) == FirstSector(n, e);
    var secs, secs' := ChainSecs(g, ch), ChainSecs(g, ch + [nc]);
    assert 16 * |secs| / 16 == |secs| && 16 * |secs| % 16 == 0;
  }

  // ----- append_dirent -----

  ghost predicate KeptSince(g: Geo, v: Vol, dirs: set<nat>, ex: set<(nat, Name)>, hist: seq<Vol>, from: nat) {
    forall k :: from <= k < |hist| ==> Keeps(g, v, hist[k], dirs, ex)
  }

  /** Some slot of the directory can take an entry. */
  ghost predicate HasRoom(g: Geo, v: Vol, x: nat)
    requires Shape(g, v) && InArea(v.area, DirSecs(g, v.fat, x))
  {
    exists k :: 0 <= k < 16 * |DirSecs(g, v.fat, x)| && !Live(Slot(v.area, DirSecs(g, v.fat, x), k))
  }

  /** No sector of a chain other than that of directory `x` changed. */
  ghost predicate ElseAgrees(g: Geo, v: Vol, b: Book, v': Vol, x: nat) {
    forall h :: h in b.chains && h != x ==> AgreeOn(v.area, v'.area, ChainSecs(g, b.chains[h]))
  }

  /** The entry `e` called `n` was added to directory `x`, and nothing else changed its meaning. */
  ghost predicate Added(g: Geo, v: Vol, b: Book, v': Vol, b': Book, x: nat, n: Name, e: Ent) {
    && Inv(g, v', b') && b'.dirs == b.dirs && Same(g, v, v', b.dirs, {(x, n)})
    && Entry(g, v', x, n) == Some(e) && FreshAt(g, v', x, n, e) && ElseAgrees(g, v, b, v', x)
    && (forall h :: h in b.chains && h != x ==> h in b'.chains && b'.chains[h] == b.chains[h])
    && (!e.IsDir() ==> FileBytes(g, v', e) == FileBytes(g, v, e))
  }

  lemma AddedFile(g: Geo, v: Vol, b: Book, v': Vol, b': Book, x: nat, e: Ent)
    requires Inv(g, v, b) && Inv(g, v', b') && EntReady(g, b, e) && !e.IsDir()
    requires e.head in b.chains ==> e.head in b'.chains && b'.chains[e.head] == b.chains[e.head]
    requires e.head in b.chains ==> AgreeOn(v.area, v'.area, ChainSecs(g, b.chains[e.head]))
    ensures FileBytes(g, v', e) == FileBytes(g, v, e)
  {
    if e.head == 0 {
      EmptyFile(g, v, e);
      EmptyFile(g, v', e);
    } else {
      FileBytesAgree(g, v, v', b.chains[e.head], b.chains[e.head], e);
    }
  }

  lemma PutElse(g: Geo, v: Vol, b: Book, x: nat, k: nat, s: seq<byte>)
    requires Inv(g, v, b) && x in b.dirs && |s| == 32
    requires InArea(v.area, Secs(g, b, x)) && k < 16 * |Secs(g, b, x)|
    ensures ElseAgrees(g, v, b, v.(area := PutSlot(v.area, Secs(g, b, x), k, s)), x)
  {
    hide Inv, SlotSet, AgreeOn, ChainSecs, PutSlot;
    InvParts(g, v, b);
    PutSlotEffect(g, v, b, x, k, s);
    forall h | h in b.chains && h != x
      ensures AgreeOn(v.area, PutSlot(v.area, Secs(g, b, x), k, s), ChainSecs(g, b.chains[h]))
    {
      InvHead(g, v, b, h);
      assert Secs(g, b, h) == ChainSecs(g, b.chains[h]);
    }
  }

  lemma PutFile(g: Geo, v: Vol, b: Book, x: nat, k: nat, n: Name, e: Ent)
    requires Inv(g, v, b) && x in b.dirs && EntReady(g, b, e) && !e.IsDir()
    requires InArea(v.area, Secs(g, b, x)) && k < 16 * |Secs(g, b, x)|
    requires var v' := v.(area := PutSlot(v.area, Secs(g, b, x), k, MakeSlot(n, e)));
      Inv(g, v', Own(b, e.head, x, k)) && ElseAgrees(g, v, b, v', x)
    ensures FileBytes(g, v.(area := PutSlot(v.area, Secs(g, b, x), k, MakeSlot(n, e))), e) == FileBytes(g, v, e)
  {
    hide Inv, AgreeOn, ChainSecs, PutSlot, MakeSlot, FileBytes;
    InvParts(g, v, b);
    AddedFile(g, v, b, v.(area := PutSlot(v.area, Secs(g, b, x), k, MakeSlot(n, e))), Own(b, e.head, x, k), x, e);
  }

  lemma AddedInSlot(g: Geo, v: Vol, b: Book, x: nat, k: nat, n: Name, e: Ent)
    requires Inv(g, v, b) && x in b.dirs && EntReady(g, b, e) && Entry(g, v, x, n).None?
    requires InArea(v.area, Secs(g, b, x)) && k < 16 * |Secs(g, b, x)|
    requires !Live(Slot(v.area, Secs(g, b, x), k)) && NoZeroBefore(v.area, Secs(g, b, x), k)
    ensures Added(g, v, b, v.(area := PutSlot(v.area, Secs(g, b, x), k, MakeSlot(n, e))), Own(b, e.head, x, k), x, n, e)
  {
    assert ValidEnt(e);
    hide Inv, FreshAt, ElseAgrees, EntReady, Entry, Same, PutSlot, MakeSlot, FileBytes, NoZeroBefore;
    AddEntry(g, v, b, x, k, n, e);
    PutElse(g, v, b, x, k, MakeSlot(n, e));
    if !e.IsDir() {
      PutFile(g, v, b, x, k, n, e);
    }
  }

  /** Puts `s` into slot `i` of the buffered sector, which is slot `k` of the directory, and writes it back. */
  method WriteSlot(fs: Volume, lba: nat, i: nat, s: seq<byte>, ghost secs: seq<nat>, ghost k: nat)
    requires fs.Valid() && |s| == 32 && k < 16 * |secs| && secs[k / 16] < |fs.vol.area|
    requires lba == fs.g.AreaLba() + secs[k / 16] && i == k % 16 && fs.buf[..] == fs.vol.area[secs[k / 16]]
    modifies fs.Arrays(), fs`vol, fs`hist
    ensures fs.Valid() && fs.vol == old(fs.vol).(area := PutSlot(old(fs.vol.area), secs, k, s))
    ensures fs.hist == old(fs.hist) + [fs.vol]
  {
    hide Volume.Valid, View;
    fs.CopyIn(32 * i, s);
    fs.WriteSector(lba);
  }

  /** A scan's hit is a slot to write the entry to. */
  lemma AddedAtHit(g: Geo, v: Vol, b: Book, x: nat, n: Name, e: Ent, lba: nat, i: nat, k: nat, buf: seq<byte>)
    requires Inv(g, v, b) && x in b.dirs && EntReady(g, b, e) && Entry(g, v, x, n).None?
    requires InArea(v.area, DirSecs(g, v.fat, x))
    requires ScanOk(g, v.area, DirSecs(g, v.fat, x), FreeSlot, Scan.Hit(lba, i), k, buf)
    ensures var secs := DirSecs(g, v.fat, x);
      && k < 16 * |secs| && secs[k / 16] < |v.area|
      && lba == g.AreaLba() + secs[k / 16] && i == k % 16 && buf == v.area[secs[k / 16]]
      && Added(g, v, b, v.(area := PutSlot(v.area, secs, k, MakeSlot(n, e))), Own(b, e.head, x, k), x, n, e)
  {
    DirSecsAreBooked(g, v, b, x);
    AddedInSlot(g, v, b, x, k, n, e);
  }

  /** The entry is written into the free slot that a scan hit. */
  method AddInSlot(fs: Volume, x: nat, n: Name, e: Ent, lba: nat, i: nat, ghost k: nat)
    requires fs.Valid() && Inv(fs.g, fs.vol, fs.book) && x in fs.book.dirs && EntReady(fs.g, fs.book, e)
    requires Entry(fs.g, fs.vol, x, n).None? && InArea(fs.vol.area, DirSecs(fs.g, fs.vol.fat, x))
    requires ScanOk(fs.g, fs.vol.area, DirSecs(fs.g, fs.vol.fat, x), FreeSlot, Scan.Hit(lba, i), k, fs.buf[..])
    modifies fs.Arrays(), fs`vol, fs`hist, fs`book
    ensures fs.Valid() && Added(fs.g, old(fs.vol), old(fs.book), fs.vol, fs.book, x, n, e)
    ensures fs.hist == old(fs.hist) + [fs.vol] && fs.vol.fat == old(fs.vol.fat)
  {
    hide Volume.Valid, Inv, Added, EntReady, ScanOk, InArea, View, PutSlot;
    ghost var v, b, secs := fs.vol, fs.book, DirSecs(fs.g, fs.vol.fat, x);
    AddedAtHit(fs.g, v, b, x, n, e, lba, i, k, fs.buf[..]);
    WriteSlot(fs, lba, i, MakeSlot(n, e), secs, k);
    fs.SetBook(Own(b, e.head, x, k));
  }

  /** The volume while a full directory grows: after the allocation, the link, and some sector writes. */
  function Growing(g: Geo, v: Vol, tail: nat, nc: Cluster, first: Sector, n: nat): Vol
    requires nc < |v.fat| && tail < |v.fat|
  {
    Vol(v.fat[nc := g.Eoc()][tail := nc], Fill(g, v.area, nc, first, n))
  }

  /** A full scan of a chained directory: the link goes behind its last cluster, and it is full. */
  ghost predicate IsFullDir(g: Geo, v: Vol, b: Book, x: nat, tail: nat) {
    && x in b.dirs && x in b.chains && InArea(v.area, ChainSecs(g, b.chains[x]))
    && b.chains[x] != [] && tail == Tail(b.chains[x])
    && NoZeroBefore(v.area, ChainSecs(g, b.chains[x]), 16 * |ChainSecs(g, b.chains[x])|)
  }

  lemma FullScanIsFullDir(g: Geo, v: Vol, b: Book, x: nat, last: nat, k: nat, buf: seq<byte>)
    requires Inv(g, v, b) && x in b.dirs && !IsRoot16(g, x) && InArea(v.area, DirSecs(g, v.fat, x))
    requires ScanOk(g, v.area, DirSecs(g, v.fat, x), FreeSlot, Full(last), k, buf)
    requires var ch := ChainOf(g, v.fat, x); ch != [] && last == ch[|ch| - 1]
    ensures IsFullDir(g, v, b, x, last) && !HasRoom(g, v, x)
    ensures last < |v.fat| && g.InData(last)
  {
    DirSecsAreBooked(g, v, b, x);
    ChainOfChain(g, v.fat, b.chains[x]);
  }

  /** While a directory grows, whatever its new cluster holds, every entry is kept. */
  lemma GrowingKeeps(g: Geo, v: Vol, b: Book, x: nat, tail: nat, nc: Cluster, first: Sector, n: nat)
    requires Inv(g, v, b) && IsFullDir(g, v, b, x, tail) && g.InData(nc) && v.fat[nc] == 0 && n <= g.spc
    ensures tail < |v.fat|
    ensures Keeps(g, v, v.(fat := v.fat[nc := g.Eoc()]), b.dirs, {})
    ensures Keeps(g, v, Growing(g, v, tail, nc, first, n), b.dirs, {})
  {
    var v1 := v.(fat := v.fat[nc := g.Eoc()]);
    TakeCluster(g, v, b, nc);
    SameKeeps(g, v, v1, b.dirs, {}, {});
    assert IsChain(g, v.fat, b.chains[x]);
    var v2 := Growing(g, v, tail, nc, first, n);
    FillUntouched(g, v1, b.chains, nc, first, n);
    LinkKeeps(g, v1, b, x, nc, v2);
    KeepsTrans(g, v, v1, v2, b.dirs, {});
  }

  lemma GrowingElse(g: Geo, v: Vol, b: Book, x: nat, tail: nat, nc: Cluster, n: Name, e: Ent)
    requires Inv(g, v, b) && g.InData(nc) && v.fat[nc] == 0 && EntReady(g, b, e) && tail < |v.fat|
    ensures ElseAgrees(g, v, b, Growing(g, v, tail, nc, FirstSector(n, e), g.spc), x)
  {
    hide Inv, Fill, FirstSector, Untouched, ChainSecs, AgreeOn, FatOk;
    InvRoot(g, v, b);
    InvTable(g, v, b);
    FreeIsUnowned(g, v, b, nc);
    FillUntouched(g, v, b.chains, nc, FirstSector(n, e), g.spc);
    forall h | h in b.chains && h != x
      ensures AgreeOn(v.area, Fill(g, v.area, nc, FirstSector(n, e), g.spc), ChainSecs(g, b.chains[h]))
    {
      FillAgrees(g, v, b, nc, FirstSector(n, e), h);
    }
  }

  lemma GrowingDone(g: Geo, v: Vol, b: Book, x: nat, tail: nat, nc: Cluster, n: Name, e: Ent)
    requires Inv(g, v, b) && IsFullDir(g, v, b, x, tail) && g.InData(nc) && v.fat[nc] == 0
    requires EntReady(g, b, e) && Entry(g, v, x, n).None?
    ensures tail < |v.fat|
    ensures Added(g, v, b, Growing(g, v, tail, nc, FirstSector(n, e), g.spc),
                  GrownBook(g, b, x, nc, e), x, n, e)
  {
    hide Inv, IsFullDir, EntReady, FreshAt, ElseAgrees;
    GrowingEntry(g, v, b, x, tail, nc, n, e);
    GrowingElse(g, v, b, x, tail, nc, n, e);
    if !e.IsDir() {
      GrowingFile(g, v, b, x, tail, nc, n, e);
    }
  }

  lemma GrowingEntry(g: Geo, v: Vol, b: Book, x: nat, tail: nat, nc: Cluster, n: Name, e: Ent)
    requires Inv(g, v, b) && IsFullDir(g, v, b, x, tail) && g.InData(nc) && v.fat[nc] == 0
    requires EntReady(g, b, e) && Entry(g, v, x, n).None?
    ensures tail < |v.fat|
    ensures var v2 := Growing(g, v, tail, nc, FirstSector(n, e), g.spc);
            && Inv(g, v2, GrownBook(g, b, x, nc, e))
            && Same(g, v, v2, b.dirs, {(x, n)}) && Entry(g, v2, x, n) == Some(e) && FreshAt(g, v2, x, n, e)
  {
    assert ValidEnt(e);
    hide Inv, EntReady, FatOk, IsChain, Unowned, FirstSector, GrownBook, FreshAt;
    FullDirTail(g, v, b, x, tail);
    var v1 := v.(fat := v.fat[nc := g.Eoc()]);
    TakeCluster(g, v, b, nc);
    assert Entry(g, v1, x, n) == Entry(g, v, x, n);
    var v2 := Growing(g, v, tail, nc, FirstSector(n, e), g.spc);
    GrowAndAdd(g, v1, b, x, nc, n, e);
    SameTrans(g, v, v1, v2, b.dirs, {}, {(x, n)});
    NothingMore({(x, n)});
  }

  lemma FullDirTail(g: Geo, v: Vol, b: Book, x: nat, tail: nat)
    requires Inv(g, v, b) && IsFullDir(g, v, b, x, tail)
    ensures g.InData(tail) && tail < |v.fat| && v.fat[tail] != 0 && g.Ok() && Shape(g, v)
  {
    assert IsChain(g, v.fat, b.chains[x]);
  }

  lemma FullDirIsOther(g: Geo, v: Vol, b: Book, x: nat, tail: nat, e: Ent)
    requires Inv(g, v, b) && IsFullDir(g, v, b, x, tail) && EntReady(g, b, e) && !e.IsDir()
    ensures x in b.chains && (e.head in b.chains ==> e.head != x && e.head != 0)
  {
    hide DirOk, FatOk, NoZeroBefore, ChainSecs;
    if e.head in b.chains { InvHead(g, v, b, e.head); }
  }

  lemma GrownChains(g: Geo, b: Book, x: nat, nc: Cluster, e: Ent)
    requires x in b.chains
    ensures forall h :: h in b.chains && h != x ==>
      h in GrownBook(g, b, x, nc, e).chains && GrownBook(g, b, x, nc, e).chains[h] == b.chains[h]
  {
    hide ChainSecs;
  }

  lemma FillAgrees(g: Geo, v: Vol, b: Book, nc: Cluster, first: Sector, h: nat)
    requires Untouched(g, b.chains, v, v.(area := Fill(g, v.area, nc, first, g.spc))) && h in b.chains
    ensures AgreeOn(v.area, Fill(g, v.area, nc, first, g.spc), ChainSecs(g, b.chains[h]))
  {
    hide ChainSecs, AgreeOn, Fill, FatOk;
  }

  lemma GrowingFile(g: Geo, v: Vol, b: Book, x: nat, tail: nat, nc: Cluster, n: Name, e: Ent)
    requires Inv(g, v, b) && IsFullDir(g, v, b, x, tail) && g.InData(nc) && v.fat[nc] == 0
    requires EntReady(g, b, e) && !e.IsDir() && tail < |v.fat|
    requires Inv(g, Growing(g, v, tail, nc, FirstSector(n, e), g.spc),
                 GrownBook(g, b, x, nc, e))
    ensures FileBytes(g, Growing(g, v, tail, nc, FirstSector(n, e), g.spc), e) == FileBytes(g, v, e)
  {
    hide Inv, IsFullDir, Fill, FirstSector, Untouched, ChainSecs, AgreeOn, FatOk;
    InvRoot(g, v, b);
    InvTable(g, v, b);
    FreeIsUnowned(g, v, b, nc);
    FullDirTail(g, v, b, x, tail);
    var first := FirstSector(n, e);
    FillUntouched(g, v, b.chains, nc, first, g.spc);
    FullDirIsOther(g, v, b, x, tail, e);
    GrownChains(g, b, x, nc, e);
    if e.head in b.chains { FillAgrees(g, v, b, nc, first, e.head); }
    AddedFile(g, v, b, Growing(g, v, tail, nc, first, g.spc), GrownBook(g, b, x, nc, e), x, e);
  }

  lemma GrowingHist(g: Geo, v: Vol, b: Book, x: nat, tail: nat, nc: Cluster, first: Sector, h: Vol)
    requires Inv(g, v, b) && IsFullDir(g, v, b, x, tail) && g.InData(nc) && v.fat[nc] == 0 && tail < |v.fat|
    requires Filling(g, h, Growing(g, v, tail, nc, first, 0), nc, first)
    ensures Keeps(g, v, h, b.dirs, {})
  {
    FillNone(g, v.area, nc, first);
    var m: nat :| m <= g.spc && h == Growing(g, v, tail, nc, first, 0).(area := Fill(g, v.area, nc, first, m));
    GrowingKeeps(g, v, b, x, tail, nc, first, m);
  }

  lemma StoredLink(g: Geo, c: nat)
    requires g.Ok() && g.InData(c)
    ensures Stored(g, c) == c
  {
  }

  /** Allocates a cluster and links it behind `tail`. */
  method LinkNew(fs: Volume, tail: nat, ghost first: Sector) returns (nc: nat)
    requires fs.Valid() && FatOk(fs.g, fs.vol.fat) && fs.g.InData(tail) && tail < |fs.vol.fat|
    requires fs.vol.fat[tail] != 0
    modifies fs.Arrays(), fs`vol, fs`hist, fs`cacheNext
    ensures fs.Valid()
    ensures nc == 0 <==> FreeClusters(fs.g, old(fs.vol.fat)) == 0
    ensures nc == 0 ==> fs.vol == old(fs.vol) && fs.hist == old(fs.hist)
    ensures nc != 0 ==> fs.g.InData(nc) && old(fs.vol).fat[nc] == 0
    ensures nc != 0 ==> fs.vol == Growing(fs.g, old(fs.vol), tail, nc, first, 0)
    ensures nc != 0 ==> var v1 := old(fs.vol).(fat := old(fs.vol).fat[nc := fs.g.Eoc()]);
      fs.hist == old(fs.hist) + [v1, v1, fs.vol, fs.vol]
    ensures nc != 0 ==> FreeClusters(fs.g, fs.vol.fat) == FreeClusters(fs.g, old(fs.vol.fat)) - 1
  {
    hide Volume.Valid, View;
    ghost var v := fs.vol;
    nc := AllocCluster(fs);
    if nc != 0 {
      ghost var h := fs.hist;
      FreeCountSet(fs.vol.fat, fs.g.clusters + 2, tail, nc);
      StoredLink(fs.g, nc);
      fs.WriteFatEntry(tail, nc);
      LinkedIsGrowing(fs.g, v, fs.vol, tail, nc, first);
      assert fs.hist == h + [fs.vol, fs.vol];
    }
  }

  /**
   What append_dirent promises: the entry is added and nothing else changes its meaning, or there is
   no room and nothing changed; and at every moment in between every entry is kept.
   */
  ghost predicate AppendSpec(g: Geo, v: Vol, b: Book, h: seq<Vol>, v': Vol, b': Book, h': seq<Vol>,
                             x: nat, n: Name, e: Ent, st: Status)
  {
    && g.Ok() && Shape(g, v) && InArea(v.area, DirSecs(g, v.fat, x)) && |v'.fat| == |v.fat|
    && (st == Ok || st == NoSpace)
    && (st == NoSpace <==> !HasRoom(g, v, x) && (IsRoot16(g, x) || FreeClusters(g, v.fat) == 0))
    && (st == NoSpace ==> v' == v && b' == b && h' == h)
    && (st == Ok ==> Added(g, v, b, v', b', x, n, e))
    && (st == Ok ==> FreeClusters(g, v'.fat) == FreeClusters(g, v.fat) - if HasRoom(g, v, x) then 0 else 1)
    && h <= h' && KeptSince(g, v, b.dirs, {}, h', |h|)
  }

  lemma NoRoomSpec(g: Geo, v: Vol, b: Book, h: seq<Vol>, x: nat, n: Name, e: Ent)
    requires Inv(g, v, b) && InArea(v.area, DirSecs(g, v.fat, x))
    requires !HasRoom(g, v, x) && (IsRoot16(g, x) || FreeClusters(g, v.fat) == 0)
    ensures AppendSpec(g, v, b, h, v, b, h, x, n, e, NoSpace)
  {
  }

  lemma InSlotSpec(g: Geo, v: Vol, b: Book, h: seq<Vol>, v': Vol, b': Book, x: nat, n: Name, e: Ent)
    requires Inv(g, v, b) && InArea(v.area, DirSecs(g, v.fat, x)) && HasRoom(g, v, x) && Entry(g, v, x, n).None?
    requires Added(g, v, b, v', b', x, n, e) && v'.fat == v.fat
    ensures AppendSpec(g, v, b, h, v', b', h + [v'], x, n, e, Ok)
  {
    SameKeeps(g, v, v', b.dirs, {(x, n)}, {});
  }

  lemma GrownSpec(g: Geo, v: Vol, b: Book, h: seq<Vol>, h': seq<Vol>, x: nat, tail: nat, nc: Cluster, n: Name, e: Ent)
    requires Inv(g, v, b) && EntReady(g, b, e) && Entry(g, v, x, n).None? && IsFullDir(g, v, b, x, tail)
    requires g.InData(nc) && v.fat[nc] == 0 && tail < |v.fat|
    requires InArea(v.area, DirSecs(g, v.fat, x)) && !HasRoom(g, v, x)
    requires GrowHist(g, v, h, h', tail, nc, FirstSector(n, e))
    requires FreeClusters(g, Growing(g, v, tail, nc, FirstSector(n, e), g.spc).fat) == FreeClusters(g, v.fat) - 1
    ensures AppendSpec(g, v, b, h, Growing(g, v, tail, nc, FirstSector(n, e), g.spc), GrownBook(g, b, x, nc, e), h',
                       x, n, e, Ok)
  {
    var first := FirstSector(n, e);
    GrowingDone(g, v, b, x, tail, nc, n, e);
    GrowingFills(g, v, tail, nc, first);
    FreeCountBound(v.fat, g.clusters + 2);
    GrowHistKept(g, v, b, h, h', x, tail, nc, first);
  }

  /** The block writes of growing: two for the allocation, two for the link, one per sector. */
  ghost predicate GrowHist(g: Geo, v: Vol, h: seq<Vol>, h': seq<Vol>, tail: nat, nc: Cluster, first: Sector)
    requires nc < |v.fat| && tail < |v.fat|
  {
    var v1, v2 := v.(fat := v.fat[nc := g.Eoc()]), Growing(g, v, tail, nc, first, 0);
    && |h'| >= |h| + 4 && h <= h'
    && h'[|h|] == h'[|h| + 1] == v1 && h'[|h| + 2] == h'[|h| + 3] == v2
    && forall k :: |h| + 4 <= k < |h'| ==> Filling(g, h'[k], v2, nc, first)
  }

  lemma GrowHistIntro(g: Geo, v: Vol, h: seq<Vol>, h1: seq<Vol>, h': seq<Vol>, tail: nat, nc: Cluster, first: Sector)
    requires nc < |v.fat| && tail < |v.fat|
    requires var v1, v2 := v.(fat := v.fat[nc := g.Eoc()]), Growing(g, v, tail, nc, first, 0);
      && h1 == h + [v1, v1, v2, v2] && h1 <= h'
      && forall k :: |h1| <= k < |h'| ==> Filling(g, h'[k], v2, nc, first)
    ensures GrowHist(g, v, h, h', tail, nc, first)
  {
    assert h'[..|h1|] == h1;
  }

  lemma GrowHistKept(g: Geo, v: Vol, b: Book, h: seq<Vol>, h': seq<Vol>, x: nat, tail: nat, nc: Cluster, first: Sector)
    requires Inv(g, v, b) && IsFullDir(g, v, b, x, tail) && g.InData(nc) && v.fat[nc] == 0 && tail < |v.fat|
    requires GrowHist(g, v, h, h', tail, nc, first)
    ensures KeptSince(g, v, b.dirs, {}, h', |h|)
  {
    hide Inv, IsFullDir, Keeps, Growing, Filling;
    GrowingKeeps(g, v, b, x, tail, nc, first, 0);
    forall k | |h| <= k < |h'| ensures Keeps(g, v, h'[k], b.dirs, {}) {
      if k >= |h| + 4 {
        GrowingHist(g, v, b, x, tail, nc, first, h'[k]);
      }
    }
  }

  /** Puts the entry into the first slot of the new cluster and zeros into all others. */
  method FillNew(fs: Volume, nc: Cluster, n: Name, e: Ent)
    requires fs.Valid() && fs.g.InData(nc) && ValidEnt(e)
    modifies fs.Arrays(), fs`vol, fs`hist
    ensures fs.Valid() && Shape(fs.g, old(fs.vol))
    ensures fs.vol == old(fs.vol).(area := Fill(fs.g, old(fs.vol).area, nc, FirstSector(n, e), fs.g.spc))
    ensures old(fs.hist) <= fs.hist
    ensures forall k :: |old(fs.hist)| <= k < |fs.hist| ==>
      Filling(fs.g, fs.hist[k], old(fs.vol), nc, FirstSector(n, e))
  {
    hide Volume.Valid, View, Fill, Filling;
    fs.ClearBuffer();
    fs.CopyIn(0, MakeSlot(n, e));
    FirstSectorIs(n, e);
    InitCluster(fs, nc);
  }

  /** The block writes of growing a directory by a cluster that holds one entry; 0 when no cluster is free. */
  method GrowOnCard(fs: Volume, tail: nat, n: Name, e: Ent) returns (nc: nat)
    requires fs.Valid() && FatOk(fs.g, fs.vol.fat) && fs.g.InData(tail) && tail < |fs.vol.fat|
    requires fs.vol.fat[tail] != 0 && ValidEnt(e)
    modifies fs.Arrays(), fs`vol, fs`hist, fs`cacheNext
    ensures fs.Valid()
    ensures nc == 0 <==> FreeClusters(fs.g, old(fs.vol.fat)) == 0
    ensures nc == 0 ==> fs.vol == old(fs.vol) && fs.hist == old(fs.hist)
    ensures nc != 0 ==> fs.g.InData(nc) && old(fs.vol).fat[nc] == 0
    ensures nc != 0 ==> fs.vol == Growing(fs.g, old(fs.vol), tail, nc, FirstSector(n, e), fs.g.spc)
    ensures nc != 0 ==> GrowHist(fs.g, old(fs.vol), old(fs.hist), fs.hist, tail, nc, FirstSector(n, e))
    ensures nc != 0 ==> FreeClusters(fs.g, fs.vol.fat) == FreeClusters(fs.g, old(fs.vol.fat)) - 1
  {
    hide Volume.Valid, View, Growing, FirstSector, GrowHist, FatOk;
    ghost var v := fs.vol;
    nc := LinkNew(fs, tail, FirstSector(n, e));
    if nc != 0 {
      ghost var h1 := fs.hist;
      FillNew(fs, nc, n, e);
      GrowHistIntro(fs.g, v, old(fs.hist), h1, fs.hist, tail, nc, FirstSector(n, e));
      GrowingFills(fs.g, v, tail, nc, FirstSector(n, e));
    }
  }

  /** A full directory grows by a cluster whose first slot takes the entry. */
  lemma GrowStart(g: Geo, v: Vol, b: Book, x: nat, e: Ent, last: nat)
    requires Inv(g, v, b) && EntReady(g, b, e) && IsFullDir(g, v, b, x, last)
    ensures FatOk(g, v.fat) && ValidEnt(e) && x in b.chains
  {
  }

  method AddByGrowing(fs: Volume, x: nat, n: Name, e: Ent, last: nat) returns (st: Status)
    requires fs.Valid() && Inv(fs.g, fs.vol, fs.book) && EntReady(fs.g, fs.book, e)
    requires IsFullDir(fs.g, fs.vol, fs.book, x, last) && Entry(fs.g, fs.vol, x, n).None? && !IsRoot16(fs.g, x)
    requires InArea(fs.vol.area, DirSecs(fs.g, fs.vol.fat, x)) && !HasRoom(fs.g, fs.vol, x)
    modifies fs.Arrays(), fs`vol, fs`hist, fs`cacheNext, fs`book
    ensures fs.Valid()
    ensures AppendSpec(fs.g, old(fs.vol), old(fs.book), old(fs.hist), fs.vol, fs.book, fs.hist, x, n, e, st)
  {
    hide Volume.Valid, Inv, AppendSpec, EntReady, IsFullDir, View, Growing, FatOk, FirstSector, GrownBook, HasRoom,
      GrowHist, Entry;
    ghost var v, b := fs.vol, fs.book;
    GrowStart(fs.g, v, b, x, e, last);
    FullDirTail(fs.g, v, b, x, last);
    var nc := GrowOnCard(fs, last, n, e);
    if nc == 0 {
      NoRoomSpec(fs.g, v, b, fs.hist, x, n, e);
      return NoSpace;
    }
    GrownSpec(fs.g, v, b, old(fs.hist), fs.hist, x, last, nc, n, e);
    fs.SetBook(GrownBook(fs.g, b, x, nc, e));
    st := Ok;
  }

  lemma GrowingFills(g: Geo, v: Vol, tail: nat, nc: Cluster, first: Sector)
    requires nc < |v.fat| && tail < |v.fat|
    ensures var v2 := Growing(g, v, tail, nc, first, 0);
      v2.(area := Fill(g, v2.area, nc, first, g.spc)) == Growing(g, v, tail, nc, first, g.spc)
    ensures Growing(g, v, tail, nc, first, g.spc).fat == Growing(g, v, tail, nc, first, 0).fat
  {
    FillNone(g, v.area, nc, first);
  }

  lemma FirstSectorIs(n: Name, e: Ent)
    requires ValidEnt(e)
    ensures Patch(Zero(), 0, MakeSlot(n, e)) == FirstSector(n, e)
  {
  }

  lemma LinkedIsGrowing(g: Geo, v: Vol, v2: Vol, tail: nat, nc: Cluster, first: Sector)
    requires nc < |v.fat| && tail < |v.fat| && v2 == Vol(v.fat[nc := g.Eoc()][tail := nc], v.area)
    ensures v2 == Growing(g, v, tail, nc, first, 0)
  {
    FillNone(g, v.area, nc, first);
  }

  lemma FillNone(g: Geo, area: seq<Sector>, c: Cluster, first: Sector)
    ensures Fill(g, area, c, first, 0) == area
  {
  }

  /** What the scan for a free slot tells about the directory. */
  lemma FreeScanFacts(g: Geo, v: Vol, b: Book, x: nat, r: Scan, k: nat, buf: seq<byte>)
    requires Inv(g, v, b) && x in b.dirs && InArea(v.area, DirSecs(g, v.fat, x))
    requires ScanOk(g, v.area, DirSecs(g, v.fat, x), FreeSlot, r, k, buf)
    requires r.Full? && !IsRoot16(g, x) ==> var ch := ChainOf(g, v.fat, x); ch != [] && r.last == ch[|ch| - 1]
    requires r.Broken? ==> !IsRoot16(g, x) && |ChainOf(g, v.fat, x)| == g.clusters + 2
    ensures r.Hit? || r.Full?
    ensures r.Hit? ==> HasRoom(g, v, x)
    ensures r.Full? ==> !HasRoom(g, v, x)
    ensures r.Full? && !IsRoot16(g, x) ==> IsFullDir(g, v, b, x, r.last)
  {
    SoundDirWalkable(g, v, b, x);
    if r.Full? && !IsRoot16(g, x) {
      FullScanIsFullDir(g, v, b, x, r.last, k, buf);
    }
  }

  /** Appends an entry to a directory: into its first free slot, or into a new cluster. */
  method AppendDirent(fs: Volume, x: nat, n: Name, e: Ent) returns (st: Status)
    requires fs.Valid() && Inv(fs.g, fs.vol, fs.book) && x in fs.book.dirs && EntReady(fs.g, fs.book, e)
    requires Entry(fs.g, fs.vol, x, n).None?
    modifies fs.Arrays(), fs`vol, fs`hist, fs`cacheNext, fs`book
    ensures fs.Valid()
    ensures AppendSpec(fs.g, old(fs.vol), old(fs.book), old(fs.hist), fs.vol, fs.book, fs.hist, x, n, e, st)
  {
    hide Volume.Valid, Inv, AppendSpec, EntReady, IsFullDir, HasRoom, ScanOk, FatOk;
    ghost var v, b := fs.vol, fs.book;
    InvDir(fs.g, v, b, x);
    var r, k := ScanDir(fs, x, FreeSlot);
    FreeScanFacts(fs.g, v, b, x, r, k, fs.buf[..]);
    if r.Hit? {
      AddInSlot(fs, x, n, e, r.lba, r.i, k);
      InSlotSpec(fs.g, v, b, old(fs.hist), fs.vol, fs.book, x, n, e);
      return Ok;
    }
    if IsRoot16(fs.g, x) {
      NoRoomSpec(fs.g, v, b, fs.hist, x, n, e);
      return NoSpace;
    }
    st := AddByGrowing(fs, x, n, e, r.last);
  }

  lemma InvDir(g: Geo, v: Vol, b: Book, x: nat)
    requires Inv(g, v, b) && x in b.dirs
    ensures FatOk(g, v.fat) && (IsRoot16(g, x) || g.InData(x)) && WalkableDir(g, v, x)
  {
    SoundDirWalkable(g, v, b, x);
  }
}
