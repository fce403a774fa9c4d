/** Single steps of the driver on the volume: each keeps the invariant and frames all other entries. */
module FatSteps {
  import opened Basics
  import opened FatLayout
  import opened FatView
  import opened FatInv

  /** The heads named by directory `y` keep their owner, their kind and at least their length. */
  ghost predicate HeadsKept(g: Geo, b: Book, b': Book, y: nat) {
    forall h :: h in b.owner && b.owner[h].0 == y && h in b.chains ==>
      && h in b'.chains && |ChainSecs(g, b.chains[h])| <= |ChainSecs(g, b'.chains[h])|
      && h in b'.owner && b'.owner[h] == b.owner[h]
      && (h in b.dirs <==> h in b'.dirs)
  }

  /** A directory whose sectors and heads are kept is still well-formed. */
  lemma DirKept(g: Geo, v: Vol, b: Book, v': Vol, b': Book, y: nat)
    requires (IsRoot16(g, y) || (y in b.chains && y in b'.chains)) && Secs(g, b', y) == Secs(g, b, y)
    requires DirOk(g, v, b, y) && AgreeOn(v.area, v'.area, Secs(g, b, y)) && HeadsKept(g, b, b', y)
    ensures DirOk(g, v', b', y)
  {
    var secs := Secs(g, b, y);
    assert forall i :: 0 <= i < 16 * |secs| ==> Slot(v'.area, secs, i) == Slot(v.area, secs, i);
    forall i | 0 <= i < 16 * |secs| ensures SlotOk(g, b', y, i, Slot(v'.area, secs, i)) {
      assert SlotOk(g, b, y, i, Slot(v.area, secs, i));
    }
  }

  // ----- changes that touch no chain in use -----

  ghost predicate Unowned(b: Book, c: nat) {
    forall h :: h in b.chains ==> c !in b.chains[h]
  }

  /** The links and sectors of every chain of `chains` are the same on both volumes. */
  ghost predicate Untouched(g: Geo, chains: map<nat, seq<Cluster>>, v: Vol, v': Vol) {
    && Shape(g, v) && Shape(g, v') && FatOk(g, v'.fat)
    && (forall h, i :: h in chains && 0 <= i < |chains[h]| && chains[h][i] < |v.fat| ==>
          v'.fat[chains[h][i]] == v.fat[chains[h][i]])
    && (forall h :: h in chains ==> AgreeOn(v.area, v'.area, ChainSecs(g, chains[h])))
    && AgreeOn(v.area, v'.area, RootSecs(g))
  }

  lemma CarryFileIfAny(g: Geo, v: Vol, b: Book, v': Vol, chains': map<nat, seq<Cluster>>, x: nat, n: Name)
    requires Inv(g, v, b) && Shape(g, v') && x in b.dirs
    requires forall h ::
      h in b.chains && h !in b.dirs && Entry(g, v, x, n).Some? && Entry(g, v, x, n).value.head == h ==>
      h in chains' && Carried(g, v, v', b.chains[h], chains'[h])
    ensures SameFile(g, v, v', Entry(g, v, x, n))
  {
    if Entry(g, v, x, n).Some? && !Entry(g, v, x, n).value.IsDir() {
      var k := EntryFacts(g, v, b, x, n);
      var h := Entry(g, v, x, n).value.head;
      CarryFile(g, v, b, v', if h in chains' then chains'[h] else [], x, n);
    }
  }

  /** Every chain of the book is carried over, as `chains'` records. */
  ghost predicate AllCarried(g: Geo, v: Vol, b: Book, v': Vol, chains': map<nat, seq<Cluster>>) {
    && Shape(g, v') && FatOk(g, v'.fat) && AgreeOn(v.area, v'.area, RootSecs(g))
    && forall h :: h in b.chains ==> h in chains' && Carried(g, v, v', b.chains[h], chains'[h])
  }

  /** Directories whose chains are carried over can be walked. */
  lemma CarriedLegible(g: Geo, v: Vol, b: Book, v': Vol, chains': map<nat, seq<Cluster>>, dirs: set<nat>)
    requires g.Ok() && BookOk(g, b) && ChainsOk(g, v.fat, b.chains) && Shape(g, v') && FatOk(g, v'.fat)
      && dirs <= b.dirs
    requires forall x :: x in dirs && x in b.chains ==> x in chains' && Carried(g, v, v', b.chains[x], chains'[x])
    ensures Legible(g, v', dirs)
  {
    forall x | x in dirs ensures WalkableDir(g, v', x) {
      if !IsRoot16(g, x) {
        assert chains'[x][0] == b.chains[x][0] == x;
        ChainReadable(g, v', chains'[x], Ent(0, x, 0));
      }
    }
  }

  /** As long as its table is that of a sound volume, a volume can be walked. */
  lemma SoundLegible(g: Geo, v: Vol, b: Book, v': Vol)
    requires Inv(g, v, b) && Shape(g, v') && v'.fat == v.fat
    ensures Legible(g, v', b.dirs)
  {
    forall x | x in b.dirs ensures WalkableDir(g, v', x) {
      if !IsRoot16(g, x) {
        ChainReadable(g, v', b.chains[x], Ent(0, x, 0));
      }
    }
  }

  /** The main frame lemma: what carries every chain over keeps every entry. */
  lemma CarriedKeeps(g: Geo, v: Vol, b: Book, v': Vol, chains': map<nat, seq<Cluster>>)
    requires Inv(g, v, b) && AllCarried(g, v, b, v', chains')
    ensures Keeps(g, v, v', b.dirs, {})
  {
    CarriedLegible(g, v, b, v', chains', b.dirs);
    forall x, n: Name | x in b.dirs && Entry(g, v, x, n).Some?
      ensures Entry(g, v', x, n) == Entry(g, v, x, n) && SameFile(g, v, v', Entry(g, v, x, n))
    {
      CarryFileIfAny(g, v, b, v', chains', x, n);
      if IsRoot16(g, x) {
        CarryDir(g, v, b, v', x, n);
      } else {
        CarryGrownDir(g, v, b, v', chains'[x], x, n);
      }
    }
  }

  /** When no directory grows either, the volume means exactly the same. */
  lemma CarriedSame(g: Geo, v: Vol, b: Book, v': Vol, chains': map<nat, seq<Cluster>>)
    requires Inv(g, v, b) && AllCarried(g, v, b, v', chains')
    requires forall x :: x in b.dirs && x in b.chains ==> chains'[x] == b.chains[x]
    ensures Same(g, v, v', b.dirs, {})
  {
    CarriedLegible(g, v, b, v', chains', b.dirs);
    forall x, n: Name | x in b.dirs
      ensures Entry(g, v', x, n) == Entry(g, v, x, n) && SameFile(g, v, v', Entry(g, v, x, n))
    {
      CarryFileIfAny(g, v, b, v', chains', x, n);
      CarryDir(g, v, b, v', x, n);
    }
  }

  lemma SameSelf(g: Geo, v: Vol, b: Book)
    requires Inv(g, v, b)
    ensures Same(g, v, v, b.dirs, {})
  {
    CarriedSame(g, v, b, v, b.chains);
  }

  /** As CarriedSame, where the entries of directory `x`, which did grow, are known to be the same. */
  lemma CarriedSameBut(g: Geo, v: Vol, b: Book, v': Vol, chains': map<nat, seq<Cluster>>, x: nat)
    requires Inv(g, v, b) && AllCarried(g, v, b, v', chains')
    requires forall y :: y in b.dirs && y in b.chains && y != x ==> chains'[y] == b.chains[y]
    requires forall n: Name :: Entry(g, v', x, n) == Entry(g, v, x, n)
    ensures Same(g, v, v', b.dirs, {})
  {
    CarriedLegible(g, v, b, v', chains', b.dirs);
    forall y, n: Name | y in b.dirs
      ensures Entry(g, v', y, n) == Entry(g, v, y, n) && SameFile(g, v, v', Entry(g, v, y, n))
    {
      CarryFileIfAny(g, v, b, v', chains', y, n);
      if y != x {
        CarryDir(g, v, b, v', y, n);
      }
    }
  }

  lemma OffBook(g: Geo, v: Vol, b: Book, v': Vol)
    requires Inv(g, v, b) && Untouched(g, b.chains, v, v')
    ensures Inv(g, v', b) && Same(g, v, v', b.dirs, {})
  {
    assert ChainsOk(g, v'.fat, b.chains);
    forall x | x in b.dirs ensures DirOk(g, v', b, x) {
      DirKept(g, v, b, v', b, x);
    }
    CarriedSame(g, v, b, v', b.chains);
  }

  /** Setting the FAT entry of a cluster that no live entry uses. */
  lemma SetUnowned(g: Geo, v: Vol, b: Book, c: nat, e: nat)
    requires Inv(g, v, b) && g.InData(c) && Unowned(b, c)
    requires e == 0 || g.IsEoc(e) || g.InData(e)
    ensures var v' := v.(fat := v.fat[c := e]); Inv(g, v', b) && Same(g, v, v', b.dirs, {})
  {
    var v' := v.(fat := v.fat[c := e]);
    forall h, i | h in b.chains && 0 <= i < |b.chains[h]| && b.chains[h][i] < |v.fat|
      ensures v'.fat[b.chains[h][i]] == v.fat[b.chains[h][i]]
    {
      assert b.chains[h][i] in b.chains[h];
    }
    OffBook(g, v, b, v');
  }

  /** Writing a sector of a cluster outside every chain of `chains`. */
  lemma ClusterWriteUntouched(g: Geo, v: Vol, chains: map<nat, seq<Cluster>>, c: Cluster, s: nat, data: Sector)
    requires Shape(g, v) && FatOk(g, v.fat) && g.InData(c) && s < g.spc
    requires forall h :: h in chains ==> c !in chains[h]
    ensures g.SecOf(c, s) < |v.area|
    ensures Untouched(g, chains, v, v.(area := v.area[g.SecOf(c, s) := data]))
  {
    SecOfInRange(g, c, s);
    var v' := v.(area := v.area[g.SecOf(c, s) := data]);
    forall h | h in chains ensures AgreeOn(v.area, v'.area, ChainSecs(g, chains[h])) {
      forall j | 0 <= j < |ChainSecs(g, chains[h])| ensures ChainSecs(g, chains[h])[j] != g.SecOf(c, s) {
        FreshCluster(g, chains[h], c, s, j);
      }
    }
  }

  // ----- bookkeeping without a write -----

  /** A chain that nobody names yet may enter the book. */
  lemma AdoptChain(g: Geo, v: Vol, b: Book, ch: seq<Cluster>)
    requires Inv(g, v, b) && IsChain(g, v.fat, ch)
    requires forall i :: 0 <= i < |ch| ==> Unowned(b, ch[i])
    ensures ch[0] !in b.chains
    ensures Inv(g, v, b.(chains := b.chains[ch[0] := ch]))
  {
    hide DirOk, ChainsOk, FatOk, BookOk, SameHeads, Unowned, IsChain;
    AdoptedChains(g, v, b, ch);
    var b' := b.(chains := b.chains[ch[0] := ch]);
    AdoptedBook(g, v, b, ch);
    Rebook(g, v, b, b');
  }

  lemma AdoptedChains(g: Geo, v: Vol, b: Book, ch: seq<Cluster>)
    requires Inv(g, v, b) && IsChain(g, v.fat, ch)
    requires forall i :: 0 <= i < |ch| ==> Unowned(b, ch[i])
    ensures ch != [] && ch[0] !in b.chains && ChainsOk(g, v.fat, b.chains[ch[0] := ch])
  {
    hide DirOk, FatOk, BookOk, IsChain;
    ChainBegins(g, v.fat, ch);
    assert Unowned(b, ch[0]);
    forall h | h in b.chains ensures b.chains[h] != [] && b.chains[h][0] in b.chains[h] {
      ChainBegins(g, v.fat, b.chains[h]);
    }
    forall h | h in b.chains ensures Disjoint(b.chains[h], ch) && Disjoint(ch, b.chains[h]) {
      forall c | c in ch ensures c !in b.chains[h] {
        var i :| 0 <= i < |ch| && ch[i] == c;
        assert Unowned(b, ch[i]);
      }
    }
  }

  lemma ChainBegins(g: Geo, fat: seq<nat>, ch: seq<Cluster>)
    requires IsChain(g, fat, ch)
    ensures ch != []
  {
  }

  lemma AdoptedBook(g: Geo, v: Vol, b: Book, ch: seq<Cluster>)
    requires Inv(g, v, b) && ch != [] && ch[0] !in b.chains
    ensures var b' := b.(chains := b.chains[ch[0] := ch]);
      SameHeads(b, b') && BookOk(g, b')
  {
    hide DirOk, FatOk, ChainsOk;
  }

  /** Every head that some slot names is booked in the same way. */
  ghost predicate SameHeads(b: Book, b': Book) {
    && (forall h :: h in b.owner && h in b.chains ==>
          && h in b'.chains && b'.chains[h] == b.chains[h]
          && h in b'.owner && b'.owner[h] == b.owner[h] && (h in b.dirs <==> h in b'.dirs))
    && (forall y :: y in b.dirs && y in b'.dirs && y in b.chains ==> y in b'.chains && b'.chains[y] == b.chains[y])
  }

  /** Directories are as well-formed after such a change of the book as before. */
  lemma Rebook(g: Geo, v: Vol, b: Book, b': Book)
    requires Inv(g, v, b) && SameHeads(b, b')
    ensures forall y :: y in b.dirs && y in b'.dirs ==> (IsRoot16(g, y) || y in b'.chains) && DirOk(g, v, b', y)
  {
    forall y | y in b.dirs && y in b'.dirs
      ensures (IsRoot16(g, y) || y in b'.chains) && DirOk(g, v, b', y)
    {
      DirKept(g, v, b, v, b', y);
    }
  }

  /** A chain that no slot names and that is no directory may leave the book. */
  lemma DropChain(g: Geo, v: Vol, b: Book, h: nat)
    requires Inv(g, v, b) && h !in b.dirs && h !in b.owner
    ensures Inv(g, v, b.(chains := b.chains - {h}))
  {
    hide DirOk, IsChain, FatOk;
    Rebook(g, v, b, b.(chains := b.chains - {h}));
  }

  /** Nothing but free slots, "." and "..". */
  ghost predicate NoEntries(area: seq<Sector>, secs: seq<nat>)
    requires InArea(area, secs)
  {
    forall k :: 0 <= k < 16 * |secs| ==>
      !Live(Slot(area, secs, k)) || (Dot(Slot(area, secs, k)) && !IsVolumeLabel(Slot(area, secs, k)))
  }

  /** A chain that no slot names and that holds no proper entry may become a directory. */
  lemma AdoptDir(g: Geo, v: Vol, b: Book, x: nat)
    requires Inv(g, v, b) && x in b.chains && x !in b.dirs && x !in b.owner && x != 0
    requires InArea(v.area, ChainSecs(g, b.chains[x]))
    requires ZeroTail(v.area, ChainSecs(g, b.chains[x]))
    requires NoEntries(v.area, ChainSecs(g, b.chains[x]))
    ensures Inv(g, v, b.(dirs := b.dirs + {x}))
  {
    hide DirOk, ChainsOk, FatOk, NoEntries, ZeroTail, ChainSecs, SameHeads;
    var b' := b.(dirs := b.dirs + {x});
    HeadsAreClusters(g, v.fat, b.chains, x);
    NoEntriesDirOk(g, v, b', x);
    MoreDirs(b, x);
    Rebook(g, v, b, b');
  }

  lemma MoreDirs(b: Book, x: nat)
    requires x in b.chains && x !in b.owner
    ensures SameHeads(b, b.(dirs := b.dirs + {x}))
  {
  }

  lemma NoEntriesDirOk(g: Geo, v: Vol, b: Book, x: nat)
    requires x in b.chains && !IsRoot16(g, x)
    requires InArea(v.area, ChainSecs(g, b.chains[x])) && ZeroTail(v.area, ChainSecs(g, b.chains[x]))
    requires NoEntries(v.area, ChainSecs(g, b.chains[x]))
    ensures DirOk(g, v, b, x)
  {
    var secs := Secs(g, b, x);
    assert UniqueNames(v.area, secs);
    forall k | 0 <= k < 16 * |secs| ensures SlotOk(g, b, x, k, Slot(v.area, secs, k)) {
      var s := Slot(v.area, secs, k);
    }
  }

  /** A directory without proper entries that no slot names may stop being one. */
  lemma DropDir(g: Geo, v: Vol, b: Book, x: nat)
    requires Inv(g, v, b) && x !in b.owner && x != g.rootCluster
    ensures Inv(g, v, b.(dirs := b.dirs - {x}))
  {
    hide DirOk, ChainsOk, FatOk;
    Rebook(g, v, b, b.(dirs := b.dirs - {x}));
  }

  // ----- writing one directory slot -----

  /** The area with slot `k` of `secs` replaced. */
  function PutSlot(area: seq<Sector>, secs: seq<nat>, k: nat, s: seq<byte>): seq<Sector>
    requires k < 16 * |secs| && secs[k / 16] < |area| && |s| == 32
  {
    area[secs[k / 16] := Patch(area[secs[k / 16]], 32 * (k % 16), s)]
  }

  lemma InvParts(g: Geo, v: Vol, b: Book)
    requires Inv(g, v, b)
    ensures ChainsOk(g, v.fat, b.chains) && forall x :: x in b.dirs ==> IsRoot16(g, x) || x in b.chains
  {
    hide DirOk, FatOk, ChainsOk;
  }

  /** What slot `i` of the listed sectors is after slot `k` was replaced. */
  lemma SlotAfter(area: seq<Sector>, secs: seq<nat>, k: nat, s: seq<byte>, i: nat)
    requires InArea(area, secs) && k < 16 * |secs| && i < 16 * |secs| && |s| == 32
    ensures InArea(PutSlot(area, secs, k, s), secs)
    ensures secs[i / 16] != secs[k / 16] ==> Slot(PutSlot(area, secs, k, s), secs, i) == Slot(area, secs, i)
    ensures i / 16 == k / 16 ==> Slot(PutSlot(area, secs, k, s), secs, i) == if i == k then s else Slot(area, secs, i)
  {
    assert i / 16 == k / 16 && i % 16 == k % 16 ==> i == k;
  }

  /** Replacing a slot changes that slot and nothing else that the book knows of. */
  lemma PutSlotEffect(g: Geo, v: Vol, b: Book, x: nat, k: nat, s: seq<byte>)
    requires Inv(g, v, b) && x in b.dirs && |s| == 32
    requires InArea(v.area, Secs(g, b, x)) && k < 16 * |Secs(g, b, x)|
    ensures var area' := PutSlot(v.area, Secs(g, b, x), k, s);
      && SlotSet(v.area, area', Secs(g, b, x), k, s)
      && (forall y :: (IsRoot16(g, y) || y in b.chains) && y != x ==> AgreeOn(v.area, area', Secs(g, b, y)))
  {
    hide Inv, Patch, Slot;
    InvParts(g, v, b);
    var secs := Secs(g, b, x);
    var area' := PutSlot(v.area, secs, k, s);
    forall i | 0 <= i < 16 * |secs|
      ensures Slot(area', secs, i) == if i == k then s else Slot(v.area, secs, i)
    {
      SlotAfter(v.area, secs, k, s, i);
      if secs[i / 16] == secs[k / 16] {
        SecsApart(g, v.fat, b, x, i / 16, x, k / 16);
      }
    }
    forall y | (IsRoot16(g, y) || y in b.chains) && y != x ensures AgreeOn(v.area, area', Secs(g, b, y)) {
      forall j | 0 <= j < |Secs(g, b, y)| ensures Secs(g, b, y)[j] != secs[k / 16] {
        if Secs(g, b, y)[j] == secs[k / 16] {
          SecsApart(g, v.fat, b, y, j, x, k / 16);
        }
      }
    }
  }

  /** No other proper slot of the list carries the name of `s`. */
  ghost predicate NewName(area: seq<Sector>, secs: seq<nat>, k: nat, s: seq<byte>)
    requires InArea(area, secs) && |s| == 32
  {
    forall i :: 0 <= i < 16 * |secs| && i != k && Proper(Slot(area, secs, i)) ==>
      Slot(area, secs, i)[..11] != s[..11]
  }

  ghost predicate NoZeroBefore(area: seq<Sector>, secs: seq<nat>, k: nat)
    requires InArea(area, secs) && k <= 16 * |secs|
  {
    forall i :: 0 <= i < k ==> Slot(area, secs, i)[0] != 0
  }

  /** `b'` differs from `b` at most in who owns the head named by slot (x, k). */
  ghost predicate Reowned(b: Book, b': Book, x: nat, k: nat) {
    && b'.dirs == b.dirs && b'.chains == b.chains
    && forall h :: h in b.owner && b.owner[h] != (x, k) ==> h in b'.owner && b'.owner[h] == b.owner[h]
  }

  lemma OwnDirKept(g: Geo, v: Vol, b: Book, v': Vol, b': Book, x: nat, k: nat, s: seq<byte>)
    requires Inv(g, v, b) && x in b.dirs && Shape(g, v') && Reowned(b, b', x, k)
    requires InArea(v.area, Secs(g, b, x)) && SlotSet(v.area, v'.area, Secs(g, b, x), k, s)
    requires s[0] != 0 && SlotOk(g, b', x, k, s)
    requires NoZeroBefore(v.area, Secs(g, b, x), k)
    requires Proper(s) ==> NewName(v.area, Secs(g, b, x), k, s)
    ensures DirOk(g, v', b', x)
  {
    assert DirOk(g, v, b, x);
    var secs := Secs(g, b, x);
    forall i | 0 <= i < 16 * |secs| ensures SlotOk(g, b', x, i, Slot(v'.area, secs, i)) {
      assert SlotOk(g, b, x, i, Slot(v.area, secs, i));
    }
    assert ZeroTail(v'.area, secs);
    assert UniqueNames(v'.area, secs);
  }

  /** The invariant after slot `k` of `x` is replaced by `s`. */
  lemma PutSlotInv(g: Geo, v: Vol, b: Book, x: nat, k: nat, s: seq<byte>, b': Book)
    requires Inv(g, v, b) && x in b.dirs && |s| == 32
    requires InArea(v.area, Secs(g, b, x)) && k < 16 * |Secs(g, b, x)|
    requires Reowned(b, b', x, k) && BookOk(g, b')
    requires s[0] != 0 && SlotOk(g, b', x, k, s)
    requires NoZeroBefore(v.area, Secs(g, b, x), k)
    requires Proper(s) ==> NewName(v.area, Secs(g, b, x), k, s)
    ensures Inv(g, v.(area := PutSlot(v.area, Secs(g, b, x), k, s)), b')
  {
    var v' := v.(area := PutSlot(v.area, Secs(g, b, x), k, s));
    PutSlotEffect(g, v, b, x, k, s);
    forall y | y in b'.dirs ensures DirOk(g, v', b', y) {
      if y == x {
        OwnDirKept(g, v, b, v', b', x, k, s);
      } else {
        DirKept(g, v, b, v', b', y);
      }
    }
  }

  // ----- directory entries -----

  ghost predicate NamesExempt(x: nat, s: seq<byte>, ex: set<(nat, Name)>)
    requires |s| == 32
  {
    s[0] != 0 ==> forall n: Name :: Matches(s, n) ==> (x, n) in ex
  }

  /** Replacing slot `k` changes the meaning of no name but the replaced and the new one. */
  lemma PutSlotSame(g: Geo, v: Vol, b: Book, x: nat, k: nat, s: seq<byte>, ex: set<(nat, Name)>)
    requires Inv(g, v, b) && x in b.dirs && |s| == 32
    requires InArea(v.area, Secs(g, b, x)) && k < 16 * |Secs(g, b, x)|
    requires s[0] != 0 && NoZeroBefore(v.area, Secs(g, b, x), k)
    requires NamesExempt(x, s, ex) && NamesExempt(x, Slot(v.area, Secs(g, b, x), k), ex)
    ensures Same(g, v, v.(area := PutSlot(v.area, Secs(g, b, x), k, s)), b.dirs, ex)
  {
    hide Legible, NoZeroBefore, NamesExempt, Entry;
    var v' := v.(area := PutSlot(v.area, Secs(g, b, x), k, s));
    SoundLegible(g, v, b, v');
    PutSlotEffect(g, v, b, x, k, s);
    forall h | h in b.chains && h !in b.dirs ensures Carried(g, v, v', b.chains[h], b.chains[h]) {
      assert AgreeOn(v.area, v'.area, Secs(g, b, h));
    }
    forall y, n: Name | y in b.dirs && (y, n) !in ex
      ensures Entry(g, v', y, n) == Entry(g, v, y, n) && SameFile(g, v, v', Entry(g, v, y, n))
    {
      CarryFileIfAny(g, v, b, v', b.chains, y, n);
      if y == x {
        PutSlotEntry(g, v, b, x, k, s, ex, n);
      } else {
        CarryDir(g, v, b, v', y, n);
      }
    }
  }

  /** Other names of the directory are looked up as before. */
  lemma PutSlotEntry(g: Geo, v: Vol, b: Book, x: nat, k: nat, s: seq<byte>, ex: set<(nat, Name)>, n: Name)
    requires Inv(g, v, b) && x in b.dirs && |s| == 32 && (x, n) !in ex
    requires InArea(v.area, Secs(g, b, x)) && k < 16 * |Secs(g, b, x)|
    requires s[0] != 0 && NoZeroBefore(v.area, Secs(g, b, x), k)
    requires NamesExempt(x, s, ex) && NamesExempt(x, Slot(v.area, Secs(g, b, x), k), ex)
    ensures Entry(g, v.(area := PutSlot(v.area, Secs(g, b, x), k, s)), x, n) == Entry(g, v, x, n)
  {
    var v' := v.(area := PutSlot(v.area, Secs(g, b, x), k, s));
    PutSlotEffect(g, v, b, x, k, s);
    DirSecsAreBooked(g, v, b, x);
    DirSecsInArea(g, v', x);
    assert DirOk(g, v, b, x);
    FindOther(v.area, v'.area, Secs(g, b, x), k, s, n);
    var f := FindCases(v.area, Secs(g, b, x), n, 0);
  }

  /** Where a lookup ends without a match there is no entry of that name. */
  lemma AbsentSlot(g: Geo, v: Vol, b: Book, x: nat, m: Name, k: nat, f: nat)
    requires Inv(g, v, b) && x in b.dirs && InArea(v.area, Secs(g, b, x)) && EndsAt(v.area, Secs(g, b, x), m, f)
    requires k < 16 * |Secs(g, b, x)|
    ensures var s := Slot(v.area, Secs(g, b, x), k); !(Live(s) && Matches(s, m))
  {
    hide FatOk, ChainsOk, UniqueNames, SlotOk, Matches;
    assert DirOk(g, v, b, x);
  }

  /** When no entry is called `n`, slot `k` may take that name. */
  lemma AbsentIsNew(g: Geo, v: Vol, b: Book, x: nat, k: nat, s: seq<byte>, n: Name)
    requires Inv(g, v, b) && x in b.dirs && |s| == 32 && s[..11] == n && Entry(g, v, x, n).None?
    requires InArea(v.area, Secs(g, b, x)) && k < 16 * |Secs(g, b, x)|
    ensures NewName(v.area, Secs(g, b, x), k, s)
  {
    hide Inv, Entry, EntOk, Find, FoundAt, ZeroTail;
    InvRoot(g, v, b);
    SlotFacts(g, v, b, x, 0);
    var secs := Secs(g, b, x);
    var f := EntryFacts(g, v, b, x, n);
    forall i | 0 <= i < 16 * |secs| && i != k && Proper(Slot(v.area, secs, i))
      ensures Slot(v.area, secs, i)[..11] != s[..11]
    {
      SlotFacts(g, v, b, x, i);
      AbsentSlot(g, v, b, x, n, i, f);
    }
  }

  /** The slot that a lookup of `n` in directory `x` finds holds these bytes. */
  ghost predicate WrittenAt(g: Geo, v: Vol, x: nat, n: Name, s: seq<byte>) {
    var secs := DirSecs(g, v.fat, x);
    InArea(v.area, secs) && exists k :: FoundAt(v.area, secs, n, k) && Slot(v.area, secs, k) == s
  }

  /** Slot `k` takes (or keeps) the name `n`, which no other entry has. */
  lemma WriteEntry(g: Geo, v: Vol, b: Book, x: nat, k: nat, s: seq<byte>, n: Name, b': Book, ex: set<(nat, Name)>)
    requires Inv(g, v, b) && x in b.dirs && |s| == 32 && s[..11] == n && s[0] == n[0]
    requires InArea(v.area, Secs(g, b, x)) && k < 16 * |Secs(g, b, x)|
    requires Reowned(b, b', x, k) && BookOk(g, b') && SlotOk(g, b', x, k, s)
    requires NoZeroBefore(v.area, Secs(g, b, x), k) && NewName(v.area, Secs(g, b, x), k, s)
    requires NamesExempt(x, Slot(v.area, Secs(g, b, x), k), ex) && (x, n) in ex
    ensures var v' := v.(area := PutSlot(v.area, Secs(g, b, x), k, s));
            && Inv(g, v', b') && Same(g, v, v', b.dirs, ex)
            && Entry(g, v', x, n) == Some(EntOf(s)) && WrittenAt(g, v', x, n, s)
  {
    var secs := Secs(g, b, x);
    var v' := v.(area := PutSlot(v.area, secs, k, s));
    PutSlotInv(g, v, b, x, k, s, b');
    PutSlotSame(g, v, b, x, k, s, ex);
    PutSlotEffect(g, v, b, x, k, s);
    DirSecsAreBooked(g, v', b', x);
    assert DirOk(g, v', b', x);
    forall i | 0 <= i < k ensures Slot(v'.area, secs, i)[0] != 0 && !Matches(Slot(v'.area, secs, i), n) {
      var si := Slot(v.area, secs, i);
      assert Slot(v'.area, secs, i) == si;
      if si[..11] == n {
        assert si[0] == si[..11][0];
        assert Proper(si);
      }
    }
    FindFound(v'.area, secs, n, k);
    assert FoundAt(v'.area, secs, n, k) && Slot(v'.area, secs, k) == s;
  }

  /** Slot `k`, which held the only entry called `n`, no longer has that name: `n` is gone. */
  lemma NameGone(g: Geo, v: Vol, b: Book, x: nat, k: nat, s: seq<byte>, n: Name, b': Book)
    requires Inv(g, v, b) && x in b.dirs && |s| == 32 && !Matches(s, n)
    requires InArea(v.area, Secs(g, b, x)) && k < 16 * |Secs(g, b, x)|
    requires Matches(Slot(v.area, Secs(g, b, x), k), n)
    requires Inv(g, v.(area := PutSlot(v.area, Secs(g, b, x), k, s)), b') && Reowned(b, b', x, k)
    ensures Entry(g, v.(area := PutSlot(v.area, Secs(g, b, x), k, s)), x, n) == None
  {
    var secs := Secs(g, b, x);
    var v' := v.(area := PutSlot(v.area, secs, k, s));
    PutSlotEffect(g, v, b, x, k, s);
    assert DirOk(g, v, b, x);
    var sk := Slot(v.area, secs, k);
    assert sk[0] == sk[..11][0];
    forall i | 0 <= i < 16 * |secs| ensures Slot(v'.area, secs, i)[0] == 0 || !Matches(Slot(v'.area, secs, i), n) {
      var si := Slot(v.area, secs, i);
      assert si[0] == si[..11][0];
    }
    var f := EntryFacts(g, v', b', x, n);
  }

  lemma Disowned(g: Geo, v: Vol, b: Book, x: nat, k: nat)
    requires Inv(g, v, b) && x in b.dirs && InArea(v.area, Secs(g, b, x)) && k < 16 * |Secs(g, b, x)|
    requires Proper(Slot(v.area, Secs(g, b, x), k))
    ensures var b' := b.(owner := b.owner - {EntOf(Slot(v.area, Secs(g, b, x), k)).head});
      BookOk(g, b') && Reowned(b, b', x, k)
  {
    hide ChainsOk, FatOk, DirOk, Slot;
    SlotFacts(g, v, b, x, k);
    if 0 in b.owner { HeadsAreClusters(g, v.fat, b.chains, 0); }
  }

  /** Two names that a slot matches are the same. */
  lemma OnlyName(x: nat, s: seq<byte>, n: Name)
    requires |s| == 32 && Matches(s, n)
    ensures NamesExempt(x, s, {(x, n)}) && NamesExempt(x, s[0 := 0xE5], {(x, n)})
  {
  }

  /** Marking slot `k`, which holds the entry `n`, as deleted. */
  lemma DeleteEntry(g: Geo, v: Vol, b: Book, x: nat, k: nat, n: Name)
    requires Inv(g, v, b) && x in b.dirs
    requires InArea(v.area, Secs(g, b, x)) && FoundAt(v.area, Secs(g, b, x), n, k)
    ensures var s := Slot(v.area, Secs(g, b, x), k);
            var v' := v.(area := PutSlot(v.area, Secs(g, b, x), k, s[0 := 0xE5]));
            && Inv(g, v', b.(owner := b.owner - {EntOf(s).head}))
            && Same(g, v, v', b.dirs, {(x, n)}) && Entry(g, v', x, n) == None
  {
    hide Inv, Entry, NewName, EntOk, UniqueNames, ZeroTail, NamesExempt;
    SlotFacts(g, v, b, x, k);
    var s := Slot(v.area, Secs(g, b, x), k);
    var b' := b.(owner := b.owner - {EntOf(s).head});
    assert s[0] == s[..11][0];
    Disowned(g, v, b, x, k);
    OnlyName(x, s, n);
    PutSlotInv(g, v, b, x, k, s[0 := 0xE5], b');
    PutSlotSame(g, v, b, x, k, s[0 := 0xE5], {(x, n)});
    NameGone(g, v, b, x, k, s[0 := 0xE5], n, b');
  }

  // ----- growing a chain by one cluster -----

  function Tail(ch: seq<Cluster>): Cluster
    requires ch != []
  {
    ch[|ch| - 1]
  }

  function Grown(b: Book, h: nat, nc: Cluster): Book
    requires h in b.chains
  {
    b.(chains := b.chains[h := b.chains[h] + [nc]])
  }

  /** Linking a free-standing last cluster behind a chain keeps all chains well-formed. */
  lemma LinkChains(g: Geo, fat: seq<nat>, chains: map<nat, seq<Cluster>>, h: nat, nc: Cluster)
    requires g.Ok() && |fat| == g.Entries() && ChainsOk(g, fat, chains) && h in chains
    requires g.InData(nc) && g.IsEoc(fat[nc]) && forall h :: h in chains ==> nc !in chains[h]
    ensures Tail(chains[h]) < |fat|
    ensures ChainsOk(g, fat[Tail(chains[h]) := nc], chains[h := chains[h] + [nc]])
  {
    var fat' := fat[Tail(chains[h]) := nc];
    var chains' := chains[h := chains[h] + [nc]];
    LinkedChain(g, fat, chains[h], nc);
    forall y | y in chains' ensures IsChain(g, fat', chains'[y]) && chains'[y][0] == y {
      if y != h {
        assert Disjoint(chains[y], chains[h]);
        OtherChain(g, fat, chains[y], Tail(chains[h]), nc);
      }
    }
    hide IsChain;
    forall y, z | y in chains' && z in chains' && y != z ensures Disjoint(chains'[y], chains'[z]) {
      assert Disjoint(chains[y], chains[z]);
    }
  }

  lemma LinkedChain(g: Geo, fat: seq<nat>, ch: seq<Cluster>, nc: Cluster)
    requires IsChain(g, fat, ch) && g.InData(nc) && nc < |fat| && g.IsEoc(fat[nc]) && nc !in ch
    ensures Tail(ch) < |fat| && Tail(ch) in ch && IsChain(g, fat[Tail(ch) := nc], ch + [nc])
  {
  }

  lemma OtherChain(g: Geo, fat: seq<nat>, ch: seq<Cluster>, t: Cluster, nc: Cluster)
    requires IsChain(g, fat, ch) && t < |fat| && t !in ch
    ensures IsChain(g, fat[t := nc], ch)
  {
    assert forall i :: 0 <= i < |ch| ==> ch[i] in ch;
  }

  /** Such a link carries every chain over, the grown one as its own extension. */
  lemma LinkCarried(g: Geo, v: Vol, b: Book, h: nat, nc: Cluster, v': Vol)
    requires g.Ok() && Shape(g, v) && FatOk(g, v.fat) && ChainsOk(g, v.fat, b.chains) && h in b.chains
    requires g.InData(nc) && g.IsEoc(v.fat[nc]) && Unowned(b, nc)
    requires Shape(g, v') && Tail(b.chains[h]) < |v.fat| && v'.fat == v.fat[Tail(b.chains[h]) := nc]
    requires forall h :: h in b.chains ==> AgreeOn(v.area, v'.area, ChainSecs(g, b.chains[h]))
    requires AgreeOn(v.area, v'.area, RootSecs(g))
    ensures ChainsOk(g, v'.fat, Grown(b, h, nc).chains)
    ensures AllCarried(g, v, b, v', Grown(b, h, nc).chains)
  {
    LinkChains(g, v.fat, b.chains, h, nc);
    LinkFatOk(g, v.fat, Tail(b.chains[h]), nc);
    var chains' := Grown(b, h, nc).chains;
    forall y | y in b.chains ensures Carried(g, v, v', b.chains[y], chains'[y]) {
      assert IsChain(g, v'.fat, chains'[y]);
    }
  }

  /** On a FAT16 volume directory 0 has no chain, so no head is 0. */
  lemma HeadsAreClusters(g: Geo, fat: seq<nat>, chains: map<nat, seq<Cluster>>, h: nat)
    requires ChainsOk(g, fat, chains) && h in chains
    ensures g.InData(h) && !IsRoot16(g, h)
  {
    assert IsChain(g, fat, chains[h]);
  }

  /**
   The tail of directory `x` is linked to a cluster whose sectors may still hold anything: every
   entry that exists is still found, and reads the same.
   */
  lemma LinkKeeps(g: Geo, v: Vol, b: Book, x: nat, nc: Cluster, v': Vol)
    requires Inv(g, v, b) && x in b.dirs && x in b.chains && g.InData(nc) && Unowned(b, nc) && g.IsEoc(v.fat[nc])
    requires Shape(g, v') && Tail(b.chains[x]) < |v.fat| && v'.fat == v.fat[Tail(b.chains[x]) := nc]
    requires forall h :: h in b.chains ==> AgreeOn(v.area, v'.area, ChainSecs(g, b.chains[h]))
    requires AgreeOn(v.area, v'.area, RootSecs(g))
    ensures Keeps(g, v, v', b.dirs, {})
  {
    LinkCarried(g, v, b, x, nc, v');
    CarriedKeeps(g, v, b, v', Grown(b, x, nc).chains);
  }

  lemma GrownHeads(g: Geo, b: Book, h: nat, nc: Cluster, y: nat)
    requires h in b.chains
    ensures HeadsKept(g, b, Grown(b, h, nc), y)
  {
    ChainSecsPrefix(g, b.chains[h], b.chains[h] + [nc]);
  }

  /** Every value that the driver stores keeps the table's links in range. */
  lemma LinkFatOk(g: Geo, fat: seq<nat>, c: nat, e: nat)
    requires g.Ok() && FatOk(g, fat) && g.InData(c) && (e == 0 || g.IsEoc(e) || g.InData(e))
    ensures FatOk(g, fat[c := e])
  {
  }

  /** Linking a cluster behind a file that is no directory: nothing anyone reads changes. */
  lemma GrowFile(g: Geo, v: Vol, b: Book, h: nat, nc: Cluster)
    requires Inv(g, v, b) && h in b.chains && h !in b.dirs && g.InData(nc) && Unowned(b, nc) && g.IsEoc(v.fat[nc])
    ensures Tail(b.chains[h]) < |v.fat|
    ensures var v' := v.(fat := v.fat[Tail(b.chains[h]) := nc]);
            Inv(g, v', Grown(b, h, nc)) && Same(g, v, v', b.dirs, {})
  {
    LinkChains(g, v.fat, b.chains, h, nc);
    var v' := v.(fat := v.fat[Tail(b.chains[h]) := nc]);
    LinkCarried(g, v, b, h, nc, v');
    CarriedSame(g, v, b, v', Grown(b, h, nc).chains);
    LinkFatOk(g, v.fat, Tail(b.chains[h]), nc);
    GrowFileDirs(g, v, b, h, nc, v');
  }

  lemma GrowFileDirs(g: Geo, v: Vol, b: Book, h: nat, nc: Cluster, v': Vol)
    requires Inv(g, v, b) && h in b.chains && h !in b.dirs && v'.area == v.area
    ensures forall y :: y in b.dirs ==> DirOk(g, v', Grown(b, h, nc), y)
  {
    forall y | y in b.dirs ensures DirOk(g, v', Grown(b, h, nc), y) {
      GrownHeads(g, b, h, nc, y);
      DirKept(g, v, b, v', Grown(b, h, nc), y);
    }
  }

  /** Every sector of cluster `c` is zero. */
  ghost predicate ZeroCluster(g: Geo, area: seq<Sector>, c: Cluster) {
    forall s :: 0 <= s < g.spc && g.SecOf(c, s) < |area| ==> area[g.SecOf(c, s)] == seq(512, _ => 0)
  }

  lemma GrownDirSlots(g: Geo, v: Vol, b: Book, x: nat, nc: Cluster)
    requires Inv(g, v, b) && x in b.dirs && x in b.chains && g.InData(nc) && ZeroCluster(g, v.area, nc)
    ensures var secs, secs' := ChainSecs(g, b.chains[x]), ChainSecs(g, b.chains[x] + [nc]);
            && InArea(v.area, secs) && InArea(v.area, secs') && secs <= secs'
            && (forall k :: 0 <= k < 16 * |secs| ==> Slot(v.area, secs', k) == Slot(v.area, secs, k))
            && (forall k :: 16 * |secs| <= k < 16 * |secs'| ==> Slot(v.area, secs', k)[0] == 0)
  {
    var secs, secs' := ChainSecs(g, b.chains[x]), ChainSecs(g, b.chains[x] + [nc]);
    DirSecsAreBooked(g, v, b, x);
    HeadsAreClusters(g, v.fat, b.chains, x);
    ChainSecsSnoc(g, b.chains[x], nc);
    forall j | |secs| <= j < |secs'| ensures secs'[j] < |v.area| && v.area[secs'[j]] == seq(512, _ => 0) {
      assert secs'[j] == g.SecOf(nc, j - |secs|);
      SecOfInRange(g, nc, j - |secs|);
    }
  }

  /** Linking a zeroed cluster behind a directory adds free slots and changes no entry. */
  lemma GrowDir(g: Geo, v: Vol, b: Book, x: nat, nc: Cluster)
    requires Inv(g, v, b) && x in b.dirs && x in b.chains && g.InData(nc) && Unowned(b, nc) && g.IsEoc(v.fat[nc])
    requires ZeroCluster(g, v.area, nc)
    ensures Tail(b.chains[x]) < |v.fat|
    ensures var v' := v.(fat := v.fat[Tail(b.chains[x]) := nc]);
            Inv(g, v', Grown(b, x, nc)) && Same(g, v, v', b.dirs, {})
  {
    LinkChains(g, v.fat, b.chains, x, nc);
    var v' := v.(fat := v.fat[Tail(b.chains[x]) := nc]);
    LinkFatOk(g, v.fat, Tail(b.chains[x]), nc);
    GrowDirDirs(g, v, b, x, nc, v');
    GrowDirSame(g, v, b, x, nc);
  }

  lemma GrowDirDirs(g: Geo, v: Vol, b: Book, x: nat, nc: Cluster, v': Vol)
    requires Inv(g, v, b) && x in b.dirs && x in b.chains && g.InData(nc) && ZeroCluster(g, v.area, nc)
    requires v'.area == v.area
    ensures forall y :: y in b.dirs ==> DirOk(g, v', Grown(b, x, nc), y)
  {
    GrownDirOk(g, v, b, Grown(b, x, nc), x, nc);
    forall y | y in b.dirs && y != x ensures DirOk(g, v', Grown(b, x, nc), y) {
      GrownHeads(g, b, x, nc, y);
      DirKept(g, v, b, v', Grown(b, x, nc), y);
    }
  }

  lemma GrowDirSame(g: Geo, v: Vol, b: Book, x: nat, nc: Cluster)
    requires Inv(g, v, b) && x in b.dirs && x in b.chains && g.InData(nc) && Unowned(b, nc) && g.IsEoc(v.fat[nc])
    requires ZeroCluster(g, v.area, nc) && Tail(b.chains[x]) < |v.fat|
    ensures Same(g, v, v.(fat := v.fat[Tail(b.chains[x]) := nc]), b.dirs, {})
  {
    LinkChains(g, v.fat, b.chains, x, nc);
    var v' := v.(fat := v.fat[Tail(b.chains[x]) := nc]);
    var b' := Grown(b, x, nc);
    LinkCarried(g, v, b, x, nc, v');
    forall n: Name ensures Entry(g, v', x, n) == Entry(g, v, x, n) {
      GrownDirEntry(g, v, b, v', b', x, nc, n);
    }
    CarriedSameBut(g, v, b, v', b'.chains, x);
  }

  lemma OneDirOk(g: Geo, v: Vol, b: Book, x: nat)
    requires Inv(g, v, b) && x in b.dirs && x in b.chains
    ensures !IsRoot16(g, x) && DirOk(g, v, b, x)
  {
    hide DirOk, FatOk;
    HeadsAreClusters(g, v.fat, b.chains, x);
  }

  lemma GrownTail(area: seq<Sector>, secs: seq<nat>, secs': seq<nat>)
    requires InArea(area, secs) && InArea(area, secs') && |secs| <= |secs'| && ZeroTail(area, secs)
    requires forall k :: 0 <= k < 16 * |secs| ==> Slot(area, secs', k) == Slot(area, secs, k)
    requires forall k :: 16 * |secs| <= k < 16 * |secs'| ==> Slot(area, secs', k)[0] == 0
    ensures ZeroTail(area, secs')
  {
    hide Slot;
  }

  lemma GrownUnique(area: seq<Sector>, secs: seq<nat>, secs': seq<nat>)
    requires InArea(area, secs) && InArea(area, secs') && |secs| <= |secs'| && UniqueNames(area, secs)
    requires forall k :: 0 <= k < 16 * |secs| ==> Slot(area, secs', k) == Slot(area, secs, k)
    requires forall k :: 16 * |secs| <= k < 16 * |secs'| ==> Slot(area, secs', k)[0] == 0
    ensures UniqueNames(area, secs')
  {
    hide Slot;
  }

  lemma GrownSlotOk(g: Geo, b: Book, x: nat, nc: Cluster, k: nat, s: seq<byte>)
    requires |s| == 32 && x in b.chains && SlotOk(g, b, x, k, s) && x in b.dirs
    ensures SlotOk(g, Grown(b, x, nc), x, k, s)
  {
    hide ChainSecs;
  }

  lemma ZeroSlotOk(g: Geo, b: Book, x: nat, k: nat, s: seq<byte>)
    requires |s| == 32 && s[0] == 0
    ensures SlotOk(g, b, x, k, s)
  {
  }

  lemma GrownDirOk(g: Geo, v: Vol, b: Book, b': Book, x: nat, nc: Cluster)
    requires Inv(g, v, b) && x in b.dirs && x in b.chains && g.InData(nc) && ZeroCluster(g, v.area, nc)
    requires b' == Grown(b, x, nc)
    ensures DirOk(g, v, b', x)
  {
    hide Inv, SlotOk, ZeroTail, UniqueNames, ZeroCluster, Slot;
    var secs, secs' := ChainSecs(g, b.chains[x]), ChainSecs(g, b'.chains[x]);
    GrownDirSlots(g, v, b, x, nc);
    OneDirOk(g, v, b, x);
    GrownTail(v.area, secs, secs');
    GrownUnique(v.area, secs, secs');
    forall k | 0 <= k < 16 * |secs'| ensures SlotOk(g, b', x, k, Slot(v.area, secs', k)) {
      if k < 16 * |secs| {
        GrownSlotOk(g, b, x, nc, k, Slot(v.area, secs, k));
      } else {
        ZeroSlotOk(g, b', x, k, Slot(v.area, secs', k));
      }
    }
  }

  lemma GrownDirEntry(g: Geo, v: Vol, b: Book, v': Vol, b': Book, x: nat, nc: Cluster, n: Name)
    requires Inv(g, v, b) && x in b.dirs && x in b.chains && g.InData(nc) && ZeroCluster(g, v.area, nc)
    requires Shape(g, v') && v'.area == v.area && ChainsOk(g, v'.fat, b'.chains)
    requires b' == Grown(b, x, nc)
    ensures Entry(g, v', x, n) == Entry(g, v, x, n)
  {
    hide ChainSecs, Find, FoundAt, EndsAt, ChainsOk, ZeroCluster;
    GrownDirSlots(g, v, b, x, nc);
    HeadsAreClusters(g, v.fat, b.chains, x);
    DirSecsAreBooked(g, v', b', x);
    DirSecsAreBooked(g, v, b, x);
    FindInGrown(v.area, ChainSecs(g, b.chains[x]), ChainSecs(g, b'.chains[x]), n);
  }

  /** Zero slots at the end make no difference to a lookup. */
  lemma FindInGrown(area: seq<Sector>, secs: seq<nat>, secs': seq<nat>, n: Name)
    requires InArea(area, secs) && InArea(area, secs') && |secs| <= |secs'|
    requires forall k :: 0 <= k < 16 * |secs| ==> Slot(area, secs', k) == Slot(area, secs, k)
    requires forall k :: 16 * |secs| <= k < 16 * |secs'| ==> Slot(area, secs', k)[0] == 0
    ensures Find(area, secs', n, 0) == Find(area, secs, n, 0)
    ensures Find(area, secs, n, 0).Some? ==>
      && Find(area, secs, n, 0).value < 16 * |secs|
      && Slot(area, secs', Find(area, secs, n, 0).value) == Slot(area, secs, Find(area, secs, n, 0).value)
  {
    var f := FindCases(area, secs, n, 0);
    if Find(area, secs, n, 0).Some? {
      FindFound(area, secs', n, f);
    } else {
      FindEnds(area, secs', n, f);
    }
  }

  // ----- freeing a chain -----

  /** While the chain of one entry is being freed, every other entry is kept. */
  lemma FreeKeeps(g: Geo, v: Vol, b: Book, x: nat, n: Name, v': Vol)
    requires Inv(g, v, b) && x in b.dirs && Entry(g, v, x, n).Some?
    requires Shape(g, v') && FatOk(g, v'.fat) && v'.area == v.area
    requires forall c :: 0 <= c < |v.fat| && v'.fat[c] != v.fat[c] ==>
      Entry(g, v, x, n).value.head in b.chains && g.InData(c) && c in b.chains[Entry(g, v, x, n).value.head]
    ensures Keeps(g, v, v', b.dirs - {Entry(g, v, x, n).value.head}, {(x, n)})
  {
    var h := Entry(g, v, x, n).value.head;
    var kn := EntryFacts(g, v, b, x, n);
    forall y | y in b.chains && y != h ensures Carried(g, v, v', b.chains[y], b.chains[y]) {
      if h in b.chains { assert Disjoint(b.chains[y], b.chains[h]); }
      assert forall i :: 0 <= i < |b.chains[y]| ==> b.chains[y][i] in b.chains[y];
    }
    CarriedLegible(g, v, b, v', b.chains, b.dirs - {h});
    forall y, m: Name | y in b.dirs - {h} && (y, m) != (x, n) && Entry(g, v, y, m).Some?
      ensures Entry(g, v', y, m) == Entry(g, v, y, m) && SameFile(g, v, v', Entry(g, v, y, m))
    {
      var km := EntryFacts(g, v, b, y, m);
      CarryFileIfAny(g, v, b, v', b.chains, y, m);
      CarryDir(g, v, b, v', y, m);
    }
  }
}
