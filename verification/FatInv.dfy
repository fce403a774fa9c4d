/** The volume invariant, and what single changes of the card do to it. */
module FatInv {
  import opened Basics
  import opened FatLayout
  import opened FatView

  /**
   The bookkeeping that witnesses the invariant: the directories, the cluster chain of every
   head cluster in use, and for each such head the one slot (directory, index) that names it.
   */
  datatype Book = Book(dirs: set<nat>, chains: map<nat, seq<Cluster>>, owner: map<nat, (nat, nat)>)

  /** Area sectors of directory or file `x`. */
  function Secs(g: Geo, b: Book, x: nat): seq<nat>
    requires IsRoot16(g, x) || x in b.chains
  {
    if IsRoot16(g, x) then RootSecs(g) else ChainSecs(g, b.chains[x])
  }

  // ----- the invariant -----

  ghost predicate Disjoint(s: seq<Cluster>, t: seq<Cluster>) {
    forall c :: c in s ==> c !in t
  }

  ghost predicate ChainsOk(g: Geo, fat: seq<nat>, chains: map<nat, seq<Cluster>>) {
    && (forall h :: h in chains ==> IsChain(g, fat, chains[h]) && chains[h][0] == h)
    && (forall h, h' :: h in chains && h' in chains && h != h' ==> Disjoint(chains[h], chains[h']))
  }

  /** FAT entries past the last cluster are never free, and every link stays in range. */
  ghost predicate FatOk(g: Geo, fat: seq<nat>) {
    && |fat| == g.Entries()
    && LinksOk(g, fat)
    && forall c :: g.clusters + 2 <= c < |fat| ==> fat[c] != 0
  }

  ghost predicate BookOk(g: Geo, b: Book) {
    && g.rootCluster in b.dirs
    && g.rootCluster !in b.owner
    && (forall x :: x in b.dirs ==> IsRoot16(g, x) || x in b.chains)
    && (forall x :: x in b.owner ==> x in b.chains)
  }

  /** After a zero slot there are only zero slots. */
  ghost predicate ZeroTail(area: seq<Sector>, secs: seq<nat>)
    requires InArea(area, secs)
  {
    forall i, j :: 0 <= i < j < 16 * |secs| && Slot(area, secs, i)[0] == 0 ==> Slot(area, secs, j)[0] == 0
  }

  ghost predicate UniqueNames(area: seq<Sector>, secs: seq<nat>)
    requires InArea(area, secs)
  {
    forall i, j :: 0 <= i < j < 16 * |secs| && Proper(Slot(area, secs, i)) && Proper(Slot(area, secs, j))
      ==> Slot(area, secs, i)[..11] != Slot(area, secs, j)[..11]
  }

  /** Slot `k` of directory `x` names a chain of its own, long enough for the recorded size. */
  ghost predicate EntOk(g: Geo, b: Book, x: nat, k: nat, e: Ent) {
    && (e.head != 0 ==> e.head in b.chains && e.head in b.owner && b.owner[e.head] == (x, k))
    && (e.IsDir() ==> e.head != 0 && e.head in b.dirs)
    && (!e.IsDir() && e.head != 0 ==> e.head !in b.dirs && e.size <= 512 * |ChainSecs(g, b.chains[e.head])|)
    && (!e.IsDir() && e.head == 0 ==> e.size == 0)
  }

  ghost predicate SlotOk(g: Geo, b: Book, x: nat, k: nat, s: seq<byte>)
    requires |s| == 32
  {
    Live(s) ==> !IsVolumeLabel(s) && (if s[0] == 0x2E then Dot(s) else EntOk(g, b, x, k, EntOf(s)))
  }

  ghost predicate DirOk(g: Geo, v: Vol, b: Book, x: nat)
    requires IsRoot16(g, x) || x in b.chains
  {
    var secs := Secs(g, b, x);
    && InArea(v.area, secs)
    && ZeroTail(v.area, secs)
    && UniqueNames(v.area, secs)
    && forall k :: 0 <= k < 16 * |secs| ==> SlotOk(g, b, x, k, Slot(v.area, secs, k))
  }

  /** No cluster is in two chains, every chain is acyclic and ends, every live entry owns its chain. */
  ghost predicate Inv(g: Geo, v: Vol, b: Book) {
    && g.Ok() && Shape(g, v)
    && FatOk(g, v.fat)
    && ChainsOk(g, v.fat, b.chains)
    && BookOk(g, b)
    && forall x :: x in b.dirs ==> DirOk(g, v, b, x)
  }

  lemma InvRoot(g: Geo, v: Vol, b: Book)
    requires Inv(g, v, b)
    ensures g.rootCluster in b.dirs && g.Ok() && Shape(g, v)
  {
  }

  // ----- where sectors lie -----

  lemma SecsInArea(g: Geo, fat: seq<nat>, area: seq<Sector>, b: Book, x: nat)
    requires |area| == g.AreaSize() && ChainsOk(g, fat, b.chains)
    requires IsRoot16(g, x) || x in b.chains
    ensures InArea(area, Secs(g, b, x))
  {
    if !IsRoot16(g, x) {
      ChainSecsInArea(g, b.chains[x], area);
    }
  }

  lemma FreshCluster(g: Geo, ch: seq<Cluster>, c: Cluster, s: nat, j: nat)
    requires c !in ch && s < g.spc && j < |ChainSecs(g, ch)|
    ensures ChainSecs(g, ch)[j] != g.SecOf(c, s)
  {
    var i, t := ChainSecsOrigin(g, ch, j);
    if ChainSecs(g, ch)[j] == g.SecOf(c, s) {
      SecOfInjective(g, c, s, ch[i], t);
    }
  }

  /** Equal sectors of two chains come from a shared cluster, at the same offset in it. */
  lemma SharedSector(g: Geo, ch: seq<Cluster>, i: nat, ch': seq<Cluster>, j: nat)
    returns (p: nat, q: nat, s: nat)
    requires i < |ChainSecs(g, ch)| && j < |ChainSecs(g, ch')| && ChainSecs(g, ch)[i] == ChainSecs(g, ch')[j]
    ensures p < |ch| && q < |ch'| && ch[p] == ch'[q] && i == Times(p, g.spc) + s && j == Times(q, g.spc) + s
  {
    var t;
    p, s := ChainSecsOrigin(g, ch, i);
    q, t := ChainSecsOrigin(g, ch', j);
    SecOfInjective(g, ch[p], s, ch'[q], t);
  }

  lemma ChainsApart(g: Geo, fat: seq<nat>, chains: map<nat, seq<Cluster>>, x: nat, i: nat, y: nat, j: nat)
    requires ChainsOk(g, fat, chains) && x in chains && y in chains
    requires i < |ChainSecs(g, chains[x])| && j < |ChainSecs(g, chains[y])|
    requires ChainSecs(g, chains[x])[i] == ChainSecs(g, chains[y])[j]
    ensures x == y && i == j
  {
    var p, q, s := SharedSector(g, chains[x], i, chains[y], j);
    assert chains[x][p] in chains[x] && chains[x][p] in chains[y];
    assert x == y;
    assert NoDup(chains[x]);
    assert p == q;
  }

  lemma ChainSecsPastRoot(g: Geo, ch: seq<Cluster>, j: nat)
    requires j < |ChainSecs(g, ch)|
    ensures ChainSecs(g, ch)[j] >= g.rootSecs
  {
    var i, s := ChainSecsOrigin(g, ch, j);
  }

  /** A sector belongs to one position of one chain or of the fixed root directory. */
  lemma SecsApart(g: Geo, fat: seq<nat>, b: Book, x: nat, i: nat, y: nat, j: nat)
    requires ChainsOk(g, fat, b.chains)
    requires IsRoot16(g, x) || x in b.chains
    requires IsRoot16(g, y) || y in b.chains
    requires i < |Secs(g, b, x)| && j < |Secs(g, b, y)|
    requires Secs(g, b, x)[i] == Secs(g, b, y)[j]
    ensures x == y && i == j
  {
    if !IsRoot16(g, x) { ChainSecsPastRoot(g, b.chains[x], i); }
    if !IsRoot16(g, y) { ChainSecsPastRoot(g, b.chains[y], j); }
    if !IsRoot16(g, x) && !IsRoot16(g, y) {
      ChainsApart(g, fat, b.chains, x, i, y, j);
    }
  }

  /** Directory lookups and the book agree on where a directory's slots are. */
  lemma DirSecsAreBooked(g: Geo, v: Vol, b: Book, x: nat)
    requires g.Ok() && Shape(g, v) && ChainsOk(g, v.fat, b.chains)
    requires IsRoot16(g, x) || x in b.chains
    ensures DirSecs(g, v.fat, x) == Secs(g, b, x)
    ensures x in b.chains ==> SecsFrom(g, v.fat, x) == ChainSecs(g, b.chains[x])
    ensures InArea(v.area, Secs(g, b, x))
  {
    SecsInArea(g, v.fat, v.area, b, x);
    if x in b.chains {
      ChainOfChain(g, v.fat, b.chains[x]);
    }
  }

  lemma ChainLengthIsBooked(g: Geo, v: Vol, b: Book, e: Ent)
    requires Inv(g, v, b) && e.head in b.chains
    ensures e.head >= 2 && ChainLength(g, v, e) == |b.chains[e.head]|
  {
    ChainOfChain(g, v.fat, b.chains[e.head]);
  }

  // ----- lookups under changes of the slots -----

  ghost predicate AgreeOn(area: seq<Sector>, area': seq<Sector>, secs: seq<nat>) {
    |area'| == |area| && forall j :: 0 <= j < |secs| && secs[j] < |area| ==> area'[secs[j]] == area[secs[j]]
  }

  lemma FindAgree(area: seq<Sector>, area': seq<Sector>, secs: seq<nat>, n: Name)
    requires InArea(area, secs) && AgreeOn(area, area', secs)
    ensures InArea(area', secs) && Find(area', secs, n, 0) == Find(area, secs, n, 0)
  {
    var k := FindCases(area, secs, n, 0);
    assert forall i :: 0 <= i < 16 * |secs| ==> Slot(area', secs, i) == Slot(area, secs, i);
    if Find(area, secs, n, 0).Some? {
      FindFound(area', secs, n, k);
    } else {
      FindEnds(area', secs, n, k);
    }
  }

  /** More sectors at the end never hide an entry that is already found. */
  lemma FindExtends(area: seq<Sector>, area': seq<Sector>, secs: seq<nat>, secs': seq<nat>, n: Name)
    requires InArea(area, secs) && InArea(area', secs') && AgreeOn(area, area', secs) && secs <= secs'
    requires Find(area, secs, n, 0).Some?
    ensures Find(area', secs', n, 0) == Find(area, secs, n, 0)
    ensures Find(area, secs, n, 0).value < 16 * |secs|
    ensures Slot(area', secs', Find(area, secs, n, 0).value) == Slot(area, secs, Find(area, secs, n, 0).value)
  {
    var k := FindCases(area, secs, n, 0);
    assert forall i :: 0 <= i < 16 * |secs| ==> Slot(area', secs', i) == Slot(area, secs, i);
    FindFound(area', secs', n, k);
  }

  /** `area'` differs from `area` at most in slot `k` of `secs`, which it holds as `s`. */
  ghost predicate SlotSet(area: seq<Sector>, area': seq<Sector>, secs: seq<nat>, k: nat, s: seq<byte>)
    requires InArea(area, secs)
  {
    && |area'| == |area| && |s| == 32 && k < 16 * |secs|
    && forall i :: 0 <= i < 16 * |secs| ==>
         Slot(area', secs, i) == if i == k then s else Slot(area, secs, i)
  }

  lemma FindOther(area: seq<Sector>, area': seq<Sector>, secs: seq<nat>, k: nat, s: seq<byte>, n: Name)
    requires InArea(area, secs) && ZeroTail(area, secs) && SlotSet(area, area', secs, k, s)
    requires s[0] != 0 && !Matches(s, n)
    requires Slot(area, secs, k)[0] == 0 || !Matches(Slot(area, secs, k), n)
    requires forall i :: 0 <= i < k ==> Slot(area, secs, i)[0] != 0
    ensures Find(area', secs, n, 0) == Find(area, secs, n, 0)
  {
    var f := FindCases(area, secs, n, 0);
    if Find(area, secs, n, 0).Some? {
      FindFound(area', secs, n, f);
    } else if f == k {
      FindEnds(area', secs, n, k + 1);
    } else {
      FindEnds(area', secs, n, f);
    }
  }

  // ----- frames between two volumes -----

  /** The file behind `e` reads the same on both volumes, to its end; directories are left to their own entries. */
  ghost predicate SameFile(g: Geo, v: Vol, v': Vol, e: Option<Ent>)
    requires Shape(g, v) && Shape(g, v')
  {
    e.Some? && !e.value.IsDir() ==> FileBytes(g, v', e.value) == FileBytes(g, v, e.value) && Readable(g, v', e.value)
  }

  /** The table can be followed anywhere, and the directories can be walked to their ends. */
  ghost predicate Legible(g: Geo, v: Vol, dirs: set<nat>) {
    g.Ok() && Shape(g, v) && FatOk(g, v.fat) && forall x :: x in dirs ==> WalkableDir(g, v, x)
  }

  /** Every name of every directory, save the exempt ones, means the same on both volumes. */
  ghost predicate Same(g: Geo, v: Vol, v': Vol, dirs: set<nat>, ex: set<(nat, Name)>) {
    && Shape(g, v) && Legible(g, v', dirs)
    && forall x, n: Name :: x in dirs && (x, n) !in ex ==>
         Entry(g, v', x, n) == Entry(g, v, x, n) && SameFile(g, v, v', Entry(g, v, x, n))
  }

  /** Every entry that exists, save the exempt ones, still exists and reads the same. */
  ghost predicate Keeps(g: Geo, v: Vol, v': Vol, dirs: set<nat>, ex: set<(nat, Name)>) {
    && Shape(g, v) && Legible(g, v', dirs)
    && forall x, n: Name :: x in dirs && (x, n) !in ex && Entry(g, v, x, n).Some? ==>
         Entry(g, v', x, n) == Entry(g, v, x, n) && SameFile(g, v, v', Entry(g, v, x, n))
  }

  lemma SameWeaken(g: Geo, v: Vol, v': Vol, dirs: set<nat>, dirs': set<nat>, ex: set<(nat, Name)>,
                   ex': set<(nat, Name)>)
    requires Same(g, v, v', dirs, ex) && dirs' <= dirs && ex <= ex'
    ensures Same(g, v, v', dirs', ex')
  {
  }

  lemma KeepsTrans(g: Geo, v: Vol, v': Vol, v'': Vol, dirs: set<nat>, ex: set<(nat, Name)>)
    requires Keeps(g, v, v', dirs, ex) && Keeps(g, v', v'', dirs, ex)
    ensures Keeps(g, v, v'', dirs, ex)
  {
    forall x, n: Name | x in dirs && (x, n) !in ex && Entry(g, v, x, n).Some?
      ensures Entry(g, v'', x, n) == Entry(g, v, x, n) && SameFile(g, v, v'', Entry(g, v, x, n))
    {
      assert Entry(g, v', x, n) == Entry(g, v, x, n);
    }
  }

  lemma InvTable(g: Geo, v: Vol, b: Book)
    requires Inv(g, v, b)
    ensures FatOk(g, v.fat)
  {
  }

  /** What the invariant says about one slot of a directory. */
  lemma SlotFacts(g: Geo, v: Vol, b: Book, x: nat, k: nat)
    requires Inv(g, v, b) && x in b.dirs
    ensures IsRoot16(g, x) || x in b.chains
    ensures InArea(v.area, Secs(g, b, x))
    ensures k < 16 * |Secs(g, b, x)| ==> SlotOk(g, b, x, k, Slot(v.area, Secs(g, b, x), k))
  {
    hide SlotOk, ZeroTail, UniqueNames, FatOk, ChainsOk;
    assert DirOk(g, v, b, x);
  }

  /** A lookup on a sound volume finds a slot of the directory, owned by that slot alone. */
  lemma EntryFacts(g: Geo, v: Vol, b: Book, x: nat, n: Name) returns (k: nat)
    requires Inv(g, v, b) && x in b.dirs
    ensures InArea(v.area, Secs(g, b, x))
    ensures Find(v.area, Secs(g, b, x), n, 0).Some? <==> Entry(g, v, x, n).Some?
    ensures Entry(g, v, x, n).Some? ==>
      && FoundAt(v.area, Secs(g, b, x), n, k)
      && Find(v.area, Secs(g, b, x), n, 0) == Some(k)
      && Entry(g, v, x, n).value == EntOf(Slot(v.area, Secs(g, b, x), k))
      && Proper(Slot(v.area, Secs(g, b, x), k))
      && EntOk(g, b, x, k, Entry(g, v, x, n).value)
    ensures Entry(g, v, x, n).None? ==> EndsAt(v.area, Secs(g, b, x), n, k)
  {
    DirSecsAreBooked(g, v, b, x);
    k := FindCases(v.area, Secs(g, b, x), n, 0);
    if Entry(g, v, x, n).Some? {
      var s := Slot(v.area, Secs(g, b, x), k);
      assert s[..11][0] == n[0];
      assert SlotOk(g, b, x, k, s);
    }
  }

  /** A file's bytes only depend on the chain's leading sectors that cover its size. */
  lemma FileBytesAgree(g: Geo, v: Vol, v': Vol, ch: seq<Cluster>, ch': seq<Cluster>, e: Ent)
    requires g.Ok() && Shape(g, v) && Shape(g, v')
    requires IsChain(g, v.fat, ch) && IsChain(g, v'.fat, ch') && ch <= ch' && e.head == ch[0]
    requires AgreeOn(v.area, v'.area, ChainSecs(g, ch))
    requires e.size <= 512 * |ChainSecs(g, ch)|
    ensures FileBytes(g, v', e) == FileBytes(g, v, e)
    ensures |FileBytes(g, v, e)| == e.size
  {
    ChainOfChain(g, v.fat, ch);
    ChainOfChain(g, v'.fat, ch');
    var secs, secs' := ChainSecs(g, ch), ChainSecs(g, ch');
    ChainSecsPrefix(g, ch, ch');
    DirSecsInArea(g, v, e.head);
    DirSecsInArea(g, v', e.head);
    var raw, raw' := Raw(v.area, secs), Raw(v'.area, secs');
    forall p | 0 <= p < e.size ensures raw'[p] == raw[p] {
      assert secs'[p / 512] == secs[p / 512];
    }
    assert raw'[..e.size] == raw[..e.size];
  }

  /** The chain of `h` can be found on `v'` too, perhaps longer, and its old sectors are the same. */
  ghost predicate Carried(g: Geo, v: Vol, v': Vol, ch: seq<Cluster>, ch': seq<Cluster>) {
    ch <= ch' && IsChain(g, v'.fat, ch') && AgreeOn(v.area, v'.area, ChainSecs(g, ch))
  }

  lemma CarryFile(g: Geo, v: Vol, b: Book, v': Vol, ch': seq<Cluster>, x: nat, n: Name)
    requires Inv(g, v, b) && Shape(g, v') && x in b.dirs
    requires Entry(g, v, x, n).Some? && !Entry(g, v, x, n).value.IsDir()
    requires var h := Entry(g, v, x, n).value.head;
             h in b.chains ==> Carried(g, v, v', b.chains[h], ch')
    ensures SameFile(g, v, v', Entry(g, v, x, n))
    ensures |FileBytes(g, v, Entry(g, v, x, n).value)| == Entry(g, v, x, n).value.size
  {
    var k := EntryFacts(g, v, b, x, n);
    var e := Entry(g, v, x, n).value;
    if e.head == 0 {
      EmptyFile(g, v, e);
      EmptyFile(g, v', e);
    } else {
      FileBytesAgree(g, v, v', b.chains[e.head], ch', e);
      ChainReadable(g, v', ch', e);
    }
  }

  /** A well-formed chain can be followed to its end. */
  lemma ChainReadable(g: Geo, v: Vol, ch: seq<Cluster>, e: Ent)
    requires g.Ok() && Shape(g, v) && IsChain(g, v.fat, ch) && ch[0] == e.head
    ensures Readable(g, v, e) && WalkableDir(g, v, e.head)
  {
    ChainOfChain(g, v.fat, ch);
  }

  /** A directory whose chain is carried over unchanged has the same entries. */
  lemma CarryDir(g: Geo, v: Vol, b: Book, v': Vol, x: nat, n: Name)
    requires Inv(g, v, b) && Shape(g, v') && x in b.dirs
    requires if IsRoot16(g, x) then AgreeOn(v.area, v'.area, RootSecs(g))
             else Carried(g, v, v', b.chains[x], b.chains[x])
    ensures Entry(g, v', x, n) == Entry(g, v, x, n)
  {
    DirSecsAreBooked(g, v, b, x);
    DirSecsInArea(g, v', x);
    if !IsRoot16(g, x) {
      ChainOfChain(g, v'.fat, b.chains[x]);
    }
    var k := EntryFacts(g, v, b, x, n);
    FindAgree(v.area, v'.area, Secs(g, b, x), n);
  }

  /** A directory whose chain is carried over, perhaps longer, still has all its entries. */
  lemma CarryGrownDir(g: Geo, v: Vol, b: Book, v': Vol, ch': seq<Cluster>, x: nat, n: Name)
    requires Inv(g, v, b) && Shape(g, v') && x in b.dirs
    requires x in b.chains && !IsRoot16(g, x) && Carried(g, v, v', b.chains[x], ch')
    requires Entry(g, v, x, n).Some?
    ensures Entry(g, v', x, n) == Entry(g, v, x, n)
  {
    DirSecsAreBooked(g, v, b, x);
    DirSecsInArea(g, v', x);
    ChainOfChain(g, v'.fat, ch');
    ChainSecsPrefix(g, b.chains[x], ch');
    var k := EntryFacts(g, v, b, x, n);
    FindExtends(v.area, v'.area, Secs(g, b, x), DirSecs(g, v'.fat, x), n);
  }

  lemma EmptyFile(g: Geo, v: Vol, e: Ent)
    requires Shape(g, v) && e.head == 0
    ensures FileBytes(g, v, e) == [] && Readable(g, v, e)
  {
    DirSecsInArea(g, v, e.head);
    assert ChainOf(g, v.fat, e.head) == [];
  }
}
