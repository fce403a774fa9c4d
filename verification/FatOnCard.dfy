/** Where on the card things lie and what its bytes mean, one by one. */
module FatOnCard {
  import opened Basics
  import opened FatLayout
  import opened FatView
  import opened FatDir
  import CInts

  // ----- blocks and bytes of the card -----

  /** Byte `p` of the card. */
  function CardByte(d: seq<Sector>, p: nat): byte
    requires p < 512 * |d|
  {
    d[p / 512][p % 512]
  }

  lemma BytePlace(lba: nat, k: nat, i: nat)
    requires i < 512
    ensures (512 * lba + 512 * k + i) / 512 == lba + k && (512 * lba + 512 * k + i) % 512 == i
  {
    CInts.DivIs(512 * lba + 512 * k + i, 512, lba + k, i);
  }

  lemma CardByteAt(d: seq<Sector>, lba: nat, k: nat, i: nat)
    requires i < 512 && lba + k < |d|
    ensures 512 * lba + 512 * k + i < 512 * |d| && CardByte(d, 512 * lba + 512 * k + i) == d[lba + k][i]
  {
    BytePlace(lba, k, i);
  }

  lemma TableSector(g: Geo, d: seq<Sector>, c: nat)
    requires g.AreaLba() + g.AreaSize() <= |d| && c < g.Entries()
    ensures var k := c / g.PerSec();
      g.fatLba + k < |d| && View(g, d).fat[c] == EntryIn(g, d[g.fatLba + k], c % g.PerSec())
  {
    hide EntryIn;
    FatSectorInRange(g, c);
    ViewEntry(g, d, c);
  }

  /** Entry `c` of the first FAT on FAT32: four bytes, low ones first, of which the top four bits do not count. */
  lemma Table32OnCard(g: Geo, d: seq<Sector>, c: nat)
    requires g.AreaLba() + g.AreaSize() <= |d| && c < g.Entries() && g.fat32
    ensures var p := 512 * g.fatLba + 4 * c;
      && p + 3 < 512 * |d|
      && View(g, d).fat[c] == CardByte(d, p) + 0x100 * CardByte(d, p + 1) + 0x1_0000 * CardByte(d, p + 2)
                              + 0x100_0000 * (CardByte(d, p + 3) % 0x10)
  {
    hide CardByte, View, Geo.AreaSize, Geo.Entries;
    TableSector(g, d, c);
    var k, i := c / 128, c % 128;
    assert 4 * c == 512 * k + 4 * i;
    CardByteAt(d, g.fatLba, k, 4 * i);
    CardByteAt(d, g.fatLba, k, 4 * i + 1);
    CardByteAt(d, g.fatLba, k, 4 * i + 2);
    CardByteAt(d, g.fatLba, k, 4 * i + 3);
    var s := d[g.fatLba + k];
    LowBits(s[4 * i], s[4 * i + 1], s[4 * i + 2], s[4 * i + 3]);
  }

  lemma LowBits(a: byte, b: byte, c: byte, d: byte)
    ensures (a + 0x100 * b + 0x1_0000 * c + 0x100_0000 * d) % 0x1000_0000
         == a + 0x100 * b + 0x1_0000 * c + 0x100_0000 * (d % 0x10)
  {
    var low := a + 0x100 * b + 0x1_0000 * c + 0x100_0000 * (d % 0x10);
    assert d == 0x10 * (d / 0x10) + d % 0x10;
    CInts.DivIs(a + 0x100 * b + 0x1_0000 * c + 0x100_0000 * d, 0x1000_0000, d / 0x10, low);
  }

  /** And on FAT16: two bytes. */
  lemma Table16OnCard(g: Geo, d: seq<Sector>, c: nat)
    requires g.AreaLba() + g.AreaSize() <= |d| && c < g.Entries() && !g.fat32
    ensures var p := 512 * g.fatLba + 2 * c;
      p + 1 < 512 * |d| && View(g, d).fat[c] == CardByte(d, p) + 0x100 * CardByte(d, p + 1)
  {
    hide CardByte, View, Geo.AreaSize, Geo.Entries;
    TableSector(g, d, c);
    var k, i := c / 256, c % 256;
    assert 2 * c == 512 * k + 2 * i;
    CardByteAt(d, g.fatLba, k, 2 * i);
    CardByteAt(d, g.fatLba, k, 2 * i + 1);
  }

  /** Sector `s` of cluster `c`, behind both FATs and the fixed root directory; data clusters count from 2. */
  lemma ClusterOnCard(g: Geo, d: seq<Sector>, c: Cluster, s: nat)
    requires g.AreaLba() + g.AreaSize() <= |d| && g.InData(c) && s < g.spc
    ensures var lba := g.fatLba + 2 * g.fatSize + g.rootSecs + (c - 2) * g.spc + s;
      0 <= lba < |d| && g.SecOf(c, s) < |View(g, d).area| && View(g, d).area[g.SecOf(c, s)] == d[lba]
  {
    SecOfInRange(g, c, s);
    TimesIsProduct(c - 2, g.spc);
  }

  /** The fixed root directory lies right behind the second FAT. */
  lemma RootOnCard(g: Geo, d: seq<Sector>, x: nat, j: nat)
    requires g.AreaLba() + g.AreaSize() <= |d| && !g.fat32 && x == 0 && j < g.rootSecs
    ensures var secs, lba := DirSecs(g, View(g, d).fat, x), g.fatLba + 2 * g.fatSize + j;
      |secs| == g.rootSecs && secs[j] < |View(g, d).area| && lba < |d| && View(g, d).area[secs[j]] == d[lba]
  {
  }

  // ----- directories as bytes -----

  /** The bytes of directory `x`, sector after sector. */
  function DirBytes(g: Geo, v: Vol, x: nat): seq<byte>
    requires Shape(g, v)
  {
    DirSecsInArea(g, v, x);
    Raw(v.area, DirSecs(g, v.fat, x))
  }

  /** The 32 bytes at 32 * `k` are an entry called `n`, neither deleted nor a label. */
  predicate Named(d: seq<byte>, n: Name, k: nat)
    requires 32 * k + 32 <= |d|
  {
    d[32 * k..32 * k + 11] == n && d[32 * k] != 0xE5 && d[32 * k + 11] / 8 % 2 == 0
  }

  /** And they say `e`, while nothing before them ends the directory or is such an entry. */
  ghost predicate NamedFirst(d: seq<byte>, n: Name, k: nat, e: Ent) {
    && 32 * k + 32 <= |d| && Named(d, n, k) && Says(d[32 * k..32 * k + 32], e)
    && forall i :: 0 <= i < k ==> d[32 * i] != 0 && !Named(d, n, i)
  }

  lemma SlotBytes(area: seq<Sector>, secs: seq<nat>, k: nat)
    requires InArea(area, secs) && k < 16 * |secs|
    ensures 32 * k + 32 <= |Raw(area, secs)| && Slot(area, secs, k) == Raw(area, secs)[32 * k..32 * k + 32]
  {
    var d := Raw(area, secs);
    assert 32 * k == 512 * (k / 16) + 32 * (k % 16);
    forall p | 32 * k <= p < 32 * k + 32 ensures d[p] == area[secs[k / 16]][32 * (k % 16) + (p - 32 * k)] {
      CInts.DivIs(p, 512, k / 16, 32 * (k % 16) + (p - 32 * k));
    }
  }

  lemma SlotNamed(area: seq<Sector>, secs: seq<nat>, n: Name, k: nat)
    requires InArea(area, secs) && k < 16 * |secs|
    ensures 32 * k + 32 <= |Raw(area, secs)|
    ensures var d := Raw(area, secs);
      d[32 * k] == Slot(area, secs, k)[0] && (Named(d, n, k) <==> Matches(Slot(area, secs, k), n))
  {
    SlotBytes(area, secs, k);
    var d, s := Raw(area, secs), Slot(area, secs, k);
    assert s[..11] == d[32 * k..32 * k + 11];
    assert s[11] == d[32 * k + 11];
  }

  lemma FoundNamed(area: seq<Sector>, secs: seq<nat>, n: Name, k: nat, e: Ent)
    requires InArea(area, secs)
    ensures NamedFirst(Raw(area, secs), n, k, e)
      <==> FoundAt(area, secs, n, k) && EntOf(Slot(area, secs, k)) == e
  {
    hide Matches, Named, Slot, EntOf, Says;
    var d := Raw(area, secs);
    if k < 16 * |secs| {
      SlotBytes(area, secs, k);
      EntSays(Slot(area, secs, k), e);
      forall i | 0 <= i <= k
        ensures 32 * i + 32 <= |d| && d[32 * i] == Slot(area, secs, i)[0]
        ensures Named(d, n, i) <==> Matches(Slot(area, secs, i), n)
      {
        SlotNamed(area, secs, n, i);
      }
    }
  }

  /** An entry called `n` that says `e`. */
  ghost predicate NamedIn(d: seq<byte>, n: Name, e: Ent) {
    exists k: nat :: NamedFirst(d, n, k, e)
  }

  /** The entry that a lookup yields, on any volume: the first of that name, as its bytes say. */
  lemma EntryOnCard(g: Geo, v: Vol, x: nat, n: Name, e: Ent)
    requires Shape(g, v)
    ensures Entry(g, v, x, n) == Some(e) <==> NamedIn(DirBytes(g, v, x), n, e)
  {
    hide FoundAt, NamedFirst, Slot, EntOf, Raw;
    DirSecsInArea(g, v, x);
    var secs := DirSecs(g, v.fat, x);
    var f := FindCases(v.area, secs, n, 0);
    FoundNamed(v.area, secs, n, f, e);
    if NamedIn(DirBytes(g, v, x), n, e) {
      var k: nat :| NamedFirst(DirBytes(g, v, x), n, k, e);
      FoundNamed(v.area, secs, n, k, e);
      FindFound(v.area, secs, n, k);
    }
  }

  /** What a path resolves to is what the bytes of its parent directory say of its last name. */
  ghost predicate OnCard(g: Geo, v: Vol, path: seq<Name>, e: Ent)
    requires Shape(g, v)
  {
    && path != [] && ParentOf(g, v, path).Dir?
    && NamedIn(DirBytes(g, v, ParentOf(g, v, path).id), path[|path| - 1], e)
  }

  lemma ResolvedOnCard(g: Geo, v: Vol, path: seq<Name>, e: Ent)
    requires Shape(g, v)
    ensures Resolve(g, v, path) == Found(e) <==> OnCard(g, v, path, e)
  {
    if path != [] {
      ParentSplit(g, v, path);
      if ParentOf(g, v, path).Dir? {
        EntryOnCard(g, v, ParentOf(g, v, path).id, path[|path| - 1], e);
      }
    }
  }

  /** A root directory that begins with README.TXT, whose slot names cluster 5 and three bytes. */
  lemma OpensAtFive(g: Geo, v: Vol, n: Name)
    requires g.Ok() && Shape(g, v) && !g.fat32 && g.rootSecs > 0
    requires n == [0x52, 0x45, 0x41, 0x44, 0x4D, 0x45, 0x20, 0x20, 0x54, 0x58, 0x54]
    requires v.area[0][..32] == n + [0x20, 0, 0, 0, 0, 0, 0, 0, 0, 0, 0, 0, 0, 0, 0, 5, 0, 3, 0, 0, 0]
    ensures Resolve(g, v, [n]) == Found(Ent(0x20, 5, 3))
  {
    hide Raw;
    var d, s := DirBytes(g, v, 0), v.area[0][..32];
    SlotBytes(v.area, RootSecs(g), 0);
    assert d[0..32] == s && s[..11] == n;
    assert d[0..11] == d[0..32][..11];
    assert d[0] == s[0] && d[11] == s[11] == 0x20;
    assert Says(s, Ent(0x20, 5, 3));
    assert NamedFirst(d, n, 0, Ent(0x20, 5, 3));
    ResolvedOnCard(g, v, [n], Ent(0x20, 5, 3));
  }
}
