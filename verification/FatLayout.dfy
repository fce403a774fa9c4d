/** Bytes, sectors, geometry and the little-endian codecs of the FAT driver. */
module FatLayout {
  import opened Basics

  /** One 512-byte block of the card; the card reads and writes whole blocks. */
  type Sector = s: seq<byte> | |s| == 512 witness seq(512, _ => 0)

  /** A raw 8.3 name whose first byte can start a live entry other than "." and "..". */
  type Name = n: seq<byte> | |n| == 11 && n[0] != 0 && n[0] != 0xE5 && n[0] != 0x2E
    witness seq(11, _ => 0x41)

  /** Data clusters are numbered from 2. */
  type Cluster = c: nat | c >= 2 witness 2

  /** The product a * n, by repeated addition; keeps nonlinear terms out of the proofs. */
  function Times(a: nat, n: nat): nat {
    if a == 0 then 0 else Times(a - 1, n) + n
  }

  lemma {:induction false} TimesIsProduct(a: nat, n: nat)
    ensures Times(a, n) == a * n
  {
    if a > 0 {
      TimesIsProduct(a - 1, n);
      assert a * n == (a - 1) * n + n;
    }
  }

  lemma {:induction false} TimesStep(a: nat, b: nat, n: nat)
    requires a < b
    ensures Times(a, n) + n <= Times(b, n)
    decreases b - a
  {
    if a + 1 < b {
      TimesStep(a + 1, b, n);
    }
  }

  // ----- geometry -----

  /** The mounted geometry. `rootSecs` counts the sectors of the fixed FAT16 root directory. */
  datatype Geo = Geo(fat32: bool, spc: nat, fatLba: nat, fatSize: nat,
                     rootSecs: nat, clusters: nat, rootCluster: nat)
  {
    /** FAT entries held by one sector. */
    function PerSec(): nat { if fat32 then 128 else 256 }

    function Entries(): nat { fatSize * PerSec() }

    /** First block of the area that holds the fixed root directory and the data clusters. */
    function AreaLba(): nat { fatLba + 2 * fatSize }

    function AreaSize(): nat { rootSecs + Times(clusters, spc) }

    /** The value written into a freshly allocated cluster's entry. */
    function Eoc(): nat { if fat32 then 0x0FFF_FFFF else 0xFFFF }

    predicate IsEoc(e: nat) { if fat32 then e >= 0x0FFF_FFF8 else e % 0x1_0000 >= 0xFFF8 }

    predicate InData(c: nat) { 2 <= c < clusters + 2 }

    /** Well-formed: two FATs, room for every cluster, FAT type decided by the cluster count. */
    predicate Ok() {
      && spc > 0
      && clusters + 2 <= Entries()
      && (if fat32 then 65525 <= clusters <= 0x0FFF_FFF5 && rootSecs == 0 && InData(rootCluster)
          else clusters < 65525 && rootCluster == 0)
    }

    /** Area index of sector `s` of cluster `c`. */
    function SecOf(c: Cluster, s: nat): (a: nat)
      ensures a >= rootSecs
    {
      rootSecs + Times(c - 2, spc) + s
    }
  }

  lemma SecOfInRange(g: Geo, c: Cluster, s: nat)
    requires g.InData(c) && s < g.spc
    ensures g.rootSecs <= g.SecOf(c, s) < g.AreaSize()
  {
    TimesStep(c - 2, g.clusters, g.spc);
  }

  lemma SecOfIncreasing(g: Geo, c: Cluster, s: nat, c': Cluster, s': nat)
    requires c < c' && s < g.spc
    ensures g.SecOf(c, s) < g.SecOf(c', s')
  {
    TimesStep(c - 2, c' - 2, g.spc);
  }

  lemma SecOfInjective(g: Geo, c: Cluster, s: nat, c': Cluster, s': nat)
    requires s < g.spc && s' < g.spc
    requires g.SecOf(c, s) == g.SecOf(c', s')
    ensures c == c' && s == s'
  {
    if c < c' { SecOfIncreasing(g, c, s, c', s'); }
    if c' < c { SecOfIncreasing(g, c', s', c, s); }
  }

  // ----- little-endian numbers -----

  function Le16(s: seq<byte>, i: nat): nat
    requires i + 2 <= |s|
  {
    s[i] as int + 0x100 * s[i + 1] as int
  }

  function Le32(s: seq<byte>, i: nat): (v: nat)
    requires i + 4 <= |s|
    ensures v < 0x1_0000_0000
  {
    s[i] as int + 0x100 * s[i + 1] as int + 0x1_0000 * s[i + 2] as int + 0x100_0000 * s[i + 3] as int
  }

  function Bytes16(v: nat): (b: seq<byte>)
    requires v < 0x1_0000
    ensures |b| == 2 && Le16(b, 0) == v
  {
    [v % 0x100, v / 0x100]
  }

  function Bytes32(v: nat): (b: seq<byte>)
    requires v < 0x1_0000_0000
    ensures |b| == 4 && Le32(b, 0) == v
  {
    var q := v / 0x100;
    var r := q / 0x100;
    [v % 0x100, q % 0x100, r % 0x100, r / 0x100]
  }

  /** `s` with `b` copied over it at `at`: the effect of a memcpy into a buffer. */
  function Patch(s: seq<byte>, at: nat, b: seq<byte>): (r: seq<byte>)
    requires at + |b| <= |s|
    ensures |r| == |s|
    ensures forall i :: 0 <= i < |s| ==> r[i] == if at <= i < at + |b| then b[i - at] else s[i]
  {
    s[..at] + b + s[at + |b|..]
  }

  // ----- FAT entries inside a FAT sector -----

  /** Entry number `i` of a FAT sector: the low 28 bits on FAT32, all 16 bits on FAT16. */
  function EntryIn(g: Geo, s: Sector, i: nat): nat
    requires i < g.PerSec()
  {
    if g.fat32 then Le32(s, 4 * i) % 0x1000_0000 else Le16(s, 2 * i)
  }

  /** The sector with entry `i` set; FAT32 keeps the reserved top four bits of the prior word. */
  function PutEntry(g: Geo, s: Sector, i: nat, v: nat): Sector
    requires i < g.PerSec()
  {
    if g.fat32 then
      Patch(s, 4 * i, Bytes32(v % 0x1000_0000 + Le32(s, 4 * i) / 0x1000_0000 * 0x1000_0000))
    else
      Patch(s, 2 * i, Bytes16(v % 0x1_0000))
  }

  /** The value an entry reads back as after `v` is stored in it. */
  function Stored(g: Geo, v: nat): nat {
    if g.fat32 then v % 0x1000_0000 else v % 0x1_0000
  }

  lemma PutEntryWord(g: Geo, s: Sector, i: nat, v: nat)
    requires g.fat32 && i < g.PerSec()
    ensures var word, prior := Le32(PutEntry(g, s, i, v), 4 * i), Le32(s, 4 * i);
            word % 0x1000_0000 == v % 0x1000_0000 && word / 0x1000_0000 == prior / 0x1000_0000
  {
    var prior := Le32(s, 4 * i);
    var b := Bytes32(v % 0x1000_0000 + prior / 0x1000_0000 * 0x1000_0000);
    assert Le32(PutEntry(g, s, i, v), 4 * i) == Le32(b, 0);
  }

  lemma PutEntryGet(g: Geo, s: Sector, i: nat, v: nat, j: nat)
    requires i < g.PerSec() && j < g.PerSec()
    ensures EntryIn(g, PutEntry(g, s, i, v), j) == if j == i then Stored(g, v) else EntryIn(g, s, j)
  {
    var p := PutEntry(g, s, i, v);
    if g.fat32 {
      if j == i {
        PutEntryWord(g, s, i, v);
      } else {
        assert Le32(p, 4 * j) == Le32(s, 4 * j);
      }
    } else if j == i {
      assert Le16(p, 2 * i) == Le16(Bytes16(v % 0x1_0000), 0);
    } else {
      assert Le16(p, 2 * j) == Le16(s, 2 * j);
    }
  }

  // ----- the card as a volume -----

  /** What the driver reads from the card: the decoded first FAT and the root/data area. */
  datatype Vol = Vol(fat: seq<nat>, area: seq<Sector>)

  predicate Shape(g: Geo, v: Vol) {
    |v.fat| == g.Entries() && |v.area| == g.AreaSize()
  }

  /** The volume held by the blocks `d` of a card. */
  function View(g: Geo, d: seq<Sector>): (v: Vol)
    requires g.AreaLba() + g.AreaSize() <= |d|
    ensures Shape(g, v)
  {
    Vol(seq(g.Entries(), c requires 0 <= c < g.Entries() => EntryIn(g, FatSector(g, d, c), c % g.PerSec())),
        d[g.AreaLba()..g.AreaLba() + g.AreaSize()])
  }

  function FatSector(g: Geo, d: seq<Sector>, c: nat): Sector
    requires c < g.Entries() && g.AreaLba() <= |d|
  {
    FatSectorInRange(g, c);
    d[g.fatLba + c / g.PerSec()]
  }

  lemma FatSectorInRange(g: Geo, c: nat)
    requires c < g.Entries()
    ensures c / g.PerSec() < g.fatSize
  {
  }

  lemma ViewEntry(g: Geo, d: seq<Sector>, c: nat)
    requires g.AreaLba() + g.AreaSize() <= |d| && c < g.Entries()
    ensures View(g, d).fat[c] == EntryIn(g, FatSector(g, d, c), c % g.PerSec())
  {
  }

  lemma InSector(k: nat, per: nat, i: nat)
    requires (per == 128 || per == 256) && i < per
    ensures (k * per + i) / per == k && (k * per + i) % per == i
  {
  }

  /** The entries of first-FAT sector `k` are the entries k * PerSec .. of the volume. */
  lemma SectorEntries(g: Geo, d: seq<Sector>, k: nat, i: nat)
    requires g.AreaLba() + g.AreaSize() <= |d| && k < g.fatSize && i < g.PerSec()
    ensures k * g.PerSec() + i < g.Entries()
    ensures View(g, d).fat[k * g.PerSec() + i] == EntryIn(g, d[g.fatLba + k], i)
  {
    hide EntryIn;
    var c := k * g.PerSec() + i;
    InSector(k, g.PerSec(), i);
    ViewEntry(g, d, c);
  }

  /** The byte offset the driver computes falls into the entry's sector, at the entry. */
  lemma EntryOffset(g: Geo, c: nat)
    ensures g.fat32 ==> c * 4 / 512 == c / g.PerSec() && c * 4 % 512 == 4 * (c % g.PerSec())
    ensures !g.fat32 ==> c * 2 / 512 == c / g.PerSec() && c * 2 % 512 == 2 * (c % g.PerSec())
  {
  }

  /** Writing a block of the root/data area changes that sector and nothing else. */
  lemma ViewAreaWrite(g: Geo, d: seq<Sector>, a: nat, s: Sector)
    requires g.AreaLba() + g.AreaSize() <= |d| && a < g.AreaSize()
    ensures View(g, d[g.AreaLba() + a := s]) == View(g, d).(area := View(g, d).area[a := s])
  {
    var d' := d[g.AreaLba() + a := s];
    var v, v' := View(g, d), View(g, d');
    forall c | 0 <= c < g.Entries() ensures v'.fat[c] == v.fat[c] {
      FatSectorInRange(g, c);
      assert FatSector(g, d', c) == FatSector(g, d, c);
    }
    assert v'.fat == v.fat;
    assert v'.area == v.area[a := s];
  }

  lemma SameParts(k: nat, c: nat, per: nat)
    requires per > 0 && k / per == c / per
    ensures k % per == c % per <==> k == c
  {
    assert k == k / per * per + k % per && c == c / per * per + c % per;
  }

  lemma FatBeforeArea(g: Geo, d: seq<Sector>, c: nat, p: Sector)
    requires g.AreaLba() + g.AreaSize() <= |d| && c < g.Entries()
    ensures c / g.PerSec() < g.fatSize && g.fatLba + c / g.PerSec() < |d|
    ensures View(g, d[g.fatLba + c / g.PerSec() := p]).area == View(g, d).area
  {
    hide EntryIn;
    FatSectorInRange(g, c);
  }

  lemma ViewFatEntry(g: Geo, d: seq<Sector>, c: nat, val: nat, k: nat)
    requires g.AreaLba() + g.AreaSize() <= |d| && c < g.Entries() && k < g.Entries()
    ensures c / g.PerSec() < g.fatSize
    ensures View(g, d[g.fatLba + c / g.PerSec() := PutEntry(g, FatSector(g, d, c), c % g.PerSec(), val)]).fat[k]
      == if k == c then Stored(g, val) else View(g, d).fat[k]
  {
    hide EntryIn, PutEntry, Stored;
    FatSectorInRange(g, c);
    FatSectorInRange(g, k);
    var d' := d[g.fatLba + c / g.PerSec() := PutEntry(g, FatSector(g, d, c), c % g.PerSec(), val)];
    if k / g.PerSec() == c / g.PerSec() {
      PutEntryGet(g, FatSector(g, d, c), c % g.PerSec(), val, k % g.PerSec());
      SameParts(k, c, g.PerSec());
    } else {
      assert FatSector(g, d', k) == FatSector(g, d, k);
    }
  }

  /** Storing entry `c` into its first-FAT sector changes that entry of the volume and nothing else. */
  lemma ViewFatWrite(g: Geo, d: seq<Sector>, c: nat, val: nat)
    requires g.AreaLba() + g.AreaSize() <= |d| && c < g.Entries()
    ensures c / g.PerSec() < g.fatSize
    ensures View(g, d[g.fatLba + c / g.PerSec() := PutEntry(g, FatSector(g, d, c), c % g.PerSec(), val)])
         == View(g, d).(fat := View(g, d).fat[c := Stored(g, val)])
  {
    hide EntryIn, PutEntry, Stored;
    FatSectorInRange(g, c);
    var p := PutEntry(g, FatSector(g, d, c), c % g.PerSec(), val);
    var d' := d[g.fatLba + c / g.PerSec() := p];
    var v, v' := View(g, d), View(g, d');
    forall k | 0 <= k < g.Entries()
      ensures v'.fat[k] == if k == c then Stored(g, val) else v.fat[k]
    {
      ViewFatEntry(g, d, c, val, k);
    }
    assert v'.fat == v.fat[c := Stored(g, val)];
    FatBeforeArea(g, d, c, p);
  }

  /** The second FAT is never part of the volume that is read. */
  lemma ViewMirrorWrite(g: Geo, d: seq<Sector>, k: nat, s: Sector)
    requires g.AreaLba() + g.AreaSize() <= |d| && k < g.fatSize
    ensures View(g, d[g.fatLba + g.fatSize + k := s]) == View(g, d)
  {
    var d' := d[g.fatLba + g.fatSize + k := s];
    var v, v' := View(g, d), View(g, d');
    forall c | 0 <= c < g.Entries() ensures v'.fat[c] == v.fat[c] {
      FatSectorInRange(g, c);
      assert FatSector(g, d', c) == FatSector(g, d, c);
    }
    assert v'.fat == v.fat;
    assert v'.area == v.area;
  }
}
