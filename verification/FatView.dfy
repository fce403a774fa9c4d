/**
 The meaning of a volume: cluster chains, directory lookup and file contents,
 as plain functions of what is on the card.
 */
module FatView {
  import opened Basics
  import opened FatLayout

  // ----- chains -----

  /** The clusters met by following the FAT from `c`, for at most `fuel` steps. */
  function Follow(g: Geo, fat: seq<nat>, c: nat, fuel: nat): (r: seq<Cluster>)
    ensures forall i :: 0 <= i < |r| ==> g.InData(r[i])
    decreases fuel
  {
    if fuel == 0 || !g.InData(c) || c >= |fat| then []
    else [c] + Follow(g, fat, fat[c], fuel - 1)
  }

  /** Every walk gives up after `clusters + 2` steps; no acyclic chain is that long. */
  function ChainOf(g: Geo, fat: seq<nat>, c: nat): (r: seq<Cluster>)
    ensures forall i :: 0 <= i < |r| ==> g.InData(r[i])
  {
    Follow(g, fat, c, g.clusters + 2)
  }

  ghost predicate NoDup<T(!new)>(s: seq<T>) {
    forall i, j :: 0 <= i < j < |s| ==> s[i] != s[j]
  }

  /** An acyclic chain of data clusters that ends in an end-of-chain mark. */
  ghost predicate IsChain(g: Geo, fat: seq<nat>, ch: seq<Cluster>) {
    && ch != []
    && (forall i :: 0 <= i < |ch| ==> g.InData(ch[i]) && ch[i] < |fat|)
    && (forall i :: 0 <= i < |ch| - 1 ==> fat[ch[i]] == ch[i + 1])
    && g.IsEoc(fat[ch[|ch| - 1]])
    && NoDup(ch)
  }

  /** The numbers of the `n` clusters from 2 on. */
  function Clusters(n: nat): (r: set<nat>)
    ensures |r| == n && forall c :: c in r <==> 2 <= c < n + 2
  {
    if n == 0 then {} else Clusters(n - 1) + {n + 1}
  }

  lemma {:induction false} NoDupBound(s: seq<nat>, all: set<nat>)
    requires NoDup(s) && forall i :: 0 <= i < |s| ==> s[i] in all
    ensures |s| <= |all|
  {
    if s != [] {
      var n := |s| - 1;
      NoDupBound(s[..n], all - {s[n]});
    }
  }

  lemma {:induction false} FollowChain(g: Geo, fat: seq<nat>, ch: seq<Cluster>, fuel: nat)
    requires g.Ok() && |fat| == g.Entries()
    requires IsChain(g, fat, ch) && fuel >= |ch|
    ensures Follow(g, fat, ch[0], fuel) == ch
  {
    if |ch| == 1 {
      assert ch == [ch[0]];
      assert !g.InData(fat[ch[0]]);
    } else {
      assert fat[ch[0]] == ch[1];
      FollowChain(g, fat, ch[1..], fuel - 1);
      assert ch == [ch[0]] + ch[1..];
    }
  }

  /** A well-formed chain is what following the FAT from its head yields. */
  lemma ChainOfChain(g: Geo, fat: seq<nat>, ch: seq<Cluster>)
    requires g.Ok() && |fat| == g.Entries() && IsChain(g, fat, ch)
    ensures ChainOf(g, fat, ch[0]) == ch
    ensures |ch| <= g.clusters
  {
    NoDupBound(ch, Clusters(g.clusters));
    FollowChain(g, fat, ch, g.clusters + 2);
  }

  // ----- the sectors of a chain -----

  /** Area indices of one cluster's sectors. */
  function ClusterSecs(g: Geo, c: Cluster): (r: seq<nat>)
    ensures |r| == g.spc && forall s :: 0 <= s < g.spc ==> r[s] == g.SecOf(c, s) == g.SecOf(c, 0) + s
  {
    seq(g.spc, s requires 0 <= s < g.spc => g.SecOf(c, s))
  }

  /** Area indices of a chain's sectors, in file order. */
  function ChainSecs(g: Geo, ch: seq<Cluster>): seq<nat>
  {
    if ch == [] then [] else ChainSecs(g, ch[..|ch| - 1]) + ClusterSecs(g, ch[|ch| - 1])
  }

  lemma ChainSecsSnoc(g: Geo, ch: seq<Cluster>, c: Cluster)
    ensures ChainSecs(g, ch + [c]) == ChainSecs(g, ch) + ClusterSecs(g, c)
  {
    assert (ch + [c])[..|ch|] == ch;
  }

  lemma {:induction false} ChainSecsLen(g: Geo, ch: seq<Cluster>)
    ensures |ChainSecs(g, ch)| == Times(|ch|, g.spc)
  {
    if ch != [] {
      ChainSecsLen(g, ch[..|ch| - 1]);
    }
  }

  /** Chains that extend one another have sector lists that extend one another. */
  lemma {:induction false} ChainSecsPrefix(g: Geo, ch: seq<Cluster>, more: seq<Cluster>)
    requires ch <= more
    ensures ChainSecs(g, ch) <= ChainSecs(g, more)
  {
    if |ch| < |more| {
      assert ch <= more[..|more| - 1];
      ChainSecsPrefix(g, ch, more[..|more| - 1]);
    } else {
      assert ch == more;
    }
  }

  /** Every sector of a chain is a sector of one of its clusters. */
  lemma {:induction false} ChainSecsOrigin(g: Geo, ch: seq<Cluster>, j: nat) returns (i: nat, s: nat)
    requires j < |ChainSecs(g, ch)|
    ensures i < |ch| && s < g.spc && j == Times(i, g.spc) + s && ChainSecs(g, ch)[j] == g.SecOf(ch[i], s)
  {
    var n := |ch| - 1;
    ChainSecsLen(g, ch[..n]);
    if j < Times(n, g.spc) {
      i, s := ChainSecsOrigin(g, ch[..n], j);
    } else {
      i, s := n, j - Times(n, g.spc);
    }
  }

  /** Sector `s` of the chain's cluster `i` sits at position `Times(i, spc) + s`. */
  lemma {:induction false} ChainSecsAt(g: Geo, ch: seq<Cluster>, i: nat, s: nat)
    requires i < |ch| && s < g.spc
    ensures Times(i, g.spc) + s < |ChainSecs(g, ch)|
    ensures ChainSecs(g, ch)[Times(i, g.spc) + s] == g.SecOf(ch[i], s)
  {
    var n := |ch| - 1;
    ChainSecsLen(g, ch[..n]);
    if i < n {
      ChainSecsAt(g, ch[..n], i, s);
    }
  }

  // ----- bytes -----

  /** The bytes of a list of sectors, one after the other. */
  function Raw(area: seq<Sector>, secs: seq<nat>): (r: seq<byte>)
    requires forall j :: 0 <= j < |secs| ==> secs[j] < |area|
    ensures |r| == 512 * |secs|
    ensures forall p :: 0 <= p < |r| ==> r[p] == area[secs[p / 512]][p % 512]
  {
    seq(512 * |secs|, p requires 0 <= p < 512 * |secs| => area[secs[p / 512]][p % 512])
  }

  // ----- directory slots -----

  /** Slot `k` of a directory stored in `secs`; a sector holds sixteen 32-byte slots. */
  function Slot(area: seq<Sector>, secs: seq<nat>, k: nat): (s: seq<byte>)
    requires k < 16 * |secs| && secs[k / 16] < |area|
    ensures |s| == 32
  {
    area[secs[k / 16]][32 * (k % 16)..32 * (k % 16) + 32]
  }

  /** The fields of a directory entry that the driver uses. */
  datatype Ent = Ent(attr: byte, head: nat, size: nat) {
    predicate IsDir() { attr / 0x10 % 2 == 1 }
  }

  predicate IsVolumeLabel(s: seq<byte>)
    requires |s| == 32
  {
    s[11] / 8 % 2 == 1
  }

  function EntOf(s: seq<byte>): Ent
    requires |s| == 32
  {
    Ent(s[11], Le16(s, 20) * 0x1_0000 + Le16(s, 26), Le32(s, 28))
  }

  predicate ValidEnt(e: Ent) { e.head < 0x1_0000_0000 && e.size < 0x1_0000_0000 }

  /**
   What the bytes of a slot say: attributes at 11, the first cluster's low half at 26 and its high half at 20, the
   size at 28, low bytes first.
   */
  predicate Says(s: seq<byte>, e: Ent)
    requires |s| == 32
  {
    && s[11] == e.attr
    && s[26] == e.head % 0x100 && s[27] == e.head / 0x100 % 0x100
    && s[20] == e.head / 0x1_0000 % 0x100 && s[21] == e.head / 0x100_0000
    && s[28] == e.size % 0x100 && s[29] == e.size / 0x100 % 0x100
    && s[30] == e.size / 0x1_0000 % 0x100 && s[31] == e.size / 0x100_0000
  }

  lemma LowDigit(n: nat, a: byte, q: nat)
    ensures n == a + 0x100 * q <==> a == n % 0x100 && q == n / 0x100
  {
  }

  /** Four digits to the base 256, and the number. */
  lemma FourDigits(n: nat, a: byte, b: byte, c: byte, d: byte)
    ensures n == a + 0x100 * b + 0x1_0000 * c + 0x100_0000 * d
      <==> a == n % 0x100 && b == n / 0x100 % 0x100 && c == n / 0x1_0000 % 0x100 && d == n / 0x100_0000
  {
    var m := n / 0x100;
    var l := m / 0x100;
    assert l == n / 0x1_0000 && l / 0x100 == n / 0x100_0000;
    LowDigit(n, a, b + 0x100 * (c + 0x100 * d));
    LowDigit(m, b, c + 0x100 * d);
    LowDigit(l, c, d);
  }

  /** The entry that is read from a slot is the one that its bytes say. */
  lemma EntSays(s: seq<byte>, e: Ent)
    requires |s| == 32
    ensures EntOf(s) == e <==> Says(s, e)
  {
    FourDigits(e.head, s[26], s[27], s[20], s[21]);
    FourDigits(e.size, s[28], s[29], s[30], s[31]);
  }

  /** The 32 bytes the driver builds for a new entry: all unused fields zero. */
  function MakeSlot(n: seq<byte>, e: Ent): (s: seq<byte>)
    requires |n| == 11 && ValidEnt(e)
    ensures |s| == 32 && s[..11] == n && EntOf(s) == e && s[0] == n[0]
  {
    var s := n + [e.attr] + seq(8, _ => 0) + Bytes16(e.head / 0x1_0000) + [0, 0, 0, 0]
             + Bytes16(e.head % 0x1_0000) + Bytes32(e.size);
    assert Le16(s, 20) == Le16(Bytes16(e.head / 0x1_0000), 0);
    assert Le16(s, 26) == Le16(Bytes16(e.head % 0x1_0000), 0);
    assert Le32(s, 28) == Le32(Bytes32(e.size), 0);
    s
  }

  predicate Live(s: seq<byte>) requires |s| == 32 { s[0] != 0 && s[0] != 0xE5 }

  /** "." and ".." as mkdir writes them. */
  predicate Dot(s: seq<byte>)
    requires |s| == 32
  {
    s[0] == 0x2E && (s[1] == 0x20 || (s[1] == 0x2E && s[2] == 0x20))
  }

  /** A live entry other than "." and "..". */
  predicate Proper(s: seq<byte>) requires |s| == 32 { Live(s) && s[0] != 0x2E }

  /** What a lookup of `n` accepts: a live entry of that name that is no volume label. */
  predicate Matches(s: seq<byte>, n: Name)
    requires |s| == 32
  {
    s[0] != 0xE5 && !IsVolumeLabel(s) && s[..11] == n
  }

  /** First matching slot at or after `k`, where the scan ends at the first zero slot. */
  function Find(area: seq<Sector>, secs: seq<nat>, n: Name, k: nat): Option<nat>
    requires forall j :: 0 <= j < |secs| ==> secs[j] < |area|
    decreases 16 * |secs| - k
  {
    if k >= 16 * |secs| then None
    else
      var s := Slot(area, secs, k);
      if s[0] == 0 then None
      else if Matches(s, n) then Some(k)
      else Find(area, secs, n, k + 1)
  }

  ghost predicate InArea(area: seq<Sector>, secs: seq<nat>) {
    forall j :: 0 <= j < |secs| ==> secs[j] < |area|
  }

  /** Slot `k` is the one a scan for `n` stops at. */
  ghost predicate FoundAt(area: seq<Sector>, secs: seq<nat>, n: Name, k: nat)
    requires InArea(area, secs)
  {
    && k < 16 * |secs| && Matches(Slot(area, secs, k), n)
    && forall i :: 0 <= i < k ==> Slot(area, secs, i)[0] != 0 && !Matches(Slot(area, secs, i), n)
  }

  /** A scan for `n` ends without a match: at slot `k`, the first zero slot or the end. */
  ghost predicate EndsAt(area: seq<Sector>, secs: seq<nat>, n: Name, k: nat)
    requires InArea(area, secs)
  {
    && k <= 16 * |secs| && (k < 16 * |secs| ==> Slot(area, secs, k)[0] == 0)
    && forall i :: 0 <= i < k ==> Slot(area, secs, i)[0] != 0 && !Matches(Slot(area, secs, i), n)
  }

  lemma {:induction false} FindSkips(area: seq<Sector>, secs: seq<nat>, n: Name, from: nat, k: nat)
    requires InArea(area, secs) && from <= k <= 16 * |secs|
    requires forall i :: from <= i < k ==> Slot(area, secs, i)[0] != 0 && !Matches(Slot(area, secs, i), n)
    ensures Find(area, secs, n, from) == Find(area, secs, n, k)
    decreases k - from
  {
    if from < k {
      FindSkips(area, secs, n, from + 1, k);
    }
  }

  lemma FindFound(area: seq<Sector>, secs: seq<nat>, n: Name, k: nat)
    requires InArea(area, secs) && FoundAt(area, secs, n, k)
    ensures Find(area, secs, n, 0) == Some(k)
  {
    FindSkips(area, secs, n, 0, k);
  }

  lemma FindEnds(area: seq<Sector>, secs: seq<nat>, n: Name, k: nat)
    requires InArea(area, secs) && EndsAt(area, secs, n, k)
    ensures Find(area, secs, n, 0) == None
  {
    FindSkips(area, secs, n, 0, k);
  }

  /** The scan either stops at a match or ends: the two characterizations are exhaustive. */
  lemma {:induction false} FindCases(area: seq<Sector>, secs: seq<nat>, n: Name, from: nat) returns (k: nat)
    requires InArea(area, secs) && from <= 16 * |secs|
    requires forall i :: 0 <= i < from ==> Slot(area, secs, i)[0] != 0 && !Matches(Slot(area, secs, i), n)
    ensures match Find(area, secs, n, from)
            case Some(m) => k == m && FoundAt(area, secs, n, k)
            case None => EndsAt(area, secs, n, k)
    decreases 16 * |secs| - from
  {
    if from == 16 * |secs| || Slot(area, secs, from)[0] == 0 || Matches(Slot(area, secs, from), n) {
      k := from;
    } else {
      k := FindCases(area, secs, n, from + 1);
    }
  }

  // ----- directories and files -----

  /** Directory 0 is the fixed FAT16 root; every other directory is named by its first cluster. */
  predicate IsRoot16(g: Geo, x: nat) { !g.fat32 && x == 0 }

  /** Chain elements always lie in the data area when the FAT's links do. */
  ghost predicate LinksOk(g: Geo, fat: seq<nat>) {
    forall c :: 0 <= c < |fat| && g.InData(c) ==> fat[c] == 0 || g.IsEoc(fat[c]) || g.InData(fat[c])
  }

  function RootSecs(g: Geo): (r: seq<nat>)
    ensures |r| == g.rootSecs && forall j :: 0 <= j < g.rootSecs ==> r[j] == j
  {
    seq(g.rootSecs, j => j)
  }

  function SecsFrom(g: Geo, fat: seq<nat>, c: nat): seq<nat> {
    ChainSecs(g, ChainOf(g, fat, c))
  }

  function DirSecs(g: Geo, fat: seq<nat>, x: nat): seq<nat> {
    if IsRoot16(g, x) then RootSecs(g) else SecsFrom(g, fat, x)
  }

  lemma {:induction false} ChainSecsInArea(g: Geo, ch: seq<Cluster>, area: seq<Sector>)
    requires |area| == g.AreaSize()
    requires forall i :: 0 <= i < |ch| ==> g.InData(ch[i])
    ensures forall j :: 0 <= j < |ChainSecs(g, ch)| ==> g.rootSecs <= ChainSecs(g, ch)[j] < |area|
  {
    forall j | 0 <= j < |ChainSecs(g, ch)|
      ensures g.rootSecs <= ChainSecs(g, ch)[j] < |area|
    {
      var i, s := ChainSecsOrigin(g, ch, j);
      SecOfInRange(g, ch[i], s);
    }
  }

  lemma DirSecsInArea(g: Geo, v: Vol, x: nat)
    requires Shape(g, v)
    ensures InArea(v.area, DirSecs(g, v.fat, x))
    ensures InArea(v.area, SecsFrom(g, v.fat, x))
  {
    ChainSecsInArea(g, ChainOf(g, v.fat, x), v.area);
  }

  /** The entry that a lookup of `n` in directory `x` yields. */
  function Entry(g: Geo, v: Vol, x: nat, n: Name): Option<Ent>
    requires Shape(g, v)
  {
    DirSecsInArea(g, v, x);
    var secs := DirSecs(g, v.fat, x);
    match Find(v.area, secs, n, 0)
    case None => None
    case Some(k) => FindBound(v.area, secs, n, 0); Some(EntOf(Slot(v.area, secs, k)))
  }

  lemma FindBound(area: seq<Sector>, secs: seq<nat>, n: Name, k: nat)
    requires InArea(area, secs)
    ensures Find(area, secs, n, k).Some? ==> k <= Find(area, secs, n, k).value < 16 * |secs|
    decreases 16 * |secs| - k
  {
  }

  /** The bytes that reading the entry's file from start to end yields. */
  function FileBytes(g: Geo, v: Vol, e: Ent): seq<byte>
    requires Shape(g, v)
  {
    DirSecsInArea(g, v, e.head);
    var raw := Raw(v.area, SecsFrom(g, v.fat, e.head));
    if e.size <= |raw| then raw[..e.size] else raw
  }

  /** Clusters that an entry's chain occupies. */
  function ChainLength(g: Geo, v: Vol, e: Ent): nat {
    if e.head >= 2 then |ChainOf(g, v.fat, e.head)| else 0
  }

  /** The chain of a file is no longer than its size needs. */
  predicate Tight(g: Geo, v: Vol, e: Ent) {
    var m := ChainLength(g, v, e);
    e.size <= 512 * Times(m, g.spc) && (m > 0 ==> e.size > 512 * Times(m - 1, g.spc))
  }

  /** Directory `x` can be walked to its end. */
  ghost predicate WalkableDir(g: Geo, v: Vol, x: nat) {
    IsRoot16(g, x) || (g.InData(x) && |ChainOf(g, v.fat, x)| < g.clusters + 2)
  }

  /** The chain of an entry can be followed to its end. */
  ghost predicate Readable(g: Geo, v: Vol, e: Ent) {
    && (e.head < 2 || g.IsEoc(e.head) || g.InData(e.head))
    && |ChainOf(g, v.fat, e.head)| < g.clusters + 2
  }

  // ----- paths -----

  datatype Status =
    | Ok | NotFound | NotFile | Eof | Exists | NoSpace | NotEmpty | Unsupported | IoError

  datatype Lookup = Found(ent: Ent) | Miss(err: Status)

  /** Resolution of a path, component by component, from directory `x`. */
  function ResolveFrom(g: Geo, v: Vol, x: nat, path: seq<Name>): Lookup
    requires Shape(g, v)
    decreases |path|
  {
    if path == [] then Miss(NotFound)
    else
      match Entry(g, v, x, path[0])
      case None => Miss(NotFound)
      case Some(e) =>
        if |path| == 1 then Found(e)
        else if !e.IsDir() then Miss(NotFile)
        else ResolveFrom(g, v, e.head, path[1..])
  }

  function Resolve(g: Geo, v: Vol, path: seq<Name>): Lookup
    requires Shape(g, v)
  {
    ResolveFrom(g, v, g.rootCluster, path)
  }

  datatype DirLookup = Dir(id: nat) | NoDir(err: Status)

  function AsDir(l: Lookup): DirLookup {
    match l
    case Miss(err) => NoDir(err)
    case Found(e) => if e.IsDir() then Dir(e.head) else NoDir(NotFile)
  }

  /** Looking up one more component in what a path prefix resolved to. */
  function InDir(g: Geo, v: Vol, d: DirLookup, n: Name): Lookup
    requires Shape(g, v)
  {
    match d
    case NoDir(err) => Miss(err)
    case Dir(x) =>
      match Entry(g, v, x, n)
      case None => Miss(NotFound)
      case Some(e) => Found(e)
  }

  /** The directory that the last component of a path lives in. */
  function ParentOf(g: Geo, v: Vol, path: seq<Name>): DirLookup
    requires Shape(g, v) && path != []
  {
    if |path| == 1 then Dir(g.rootCluster) else AsDir(Resolve(g, v, path[..|path| - 1]))
  }

  /** A path denotes a file with exactly these bytes. */
  ghost predicate Reads(g: Geo, v: Vol, path: seq<Name>, bytes: seq<byte>)
    requires Shape(g, v)
  {
    && Resolve(g, v, path).Found?
    && !Resolve(g, v, path).ent.IsDir()
    && FileBytes(g, v, Resolve(g, v, path).ent) == bytes
    && |bytes| == Resolve(g, v, path).ent.size
  }
}
