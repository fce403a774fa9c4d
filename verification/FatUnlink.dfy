/** fat_unlink. */
module FatUnlink {
  import opened Basics
  import opened FatLayout
  import opened FatView
  import opened FatInv
  import opened FatSteps
  import opened FatVolume
  import opened FatAlloc
  import opened FatDir
  import opened FatGrow
  import opened FatData
  import opened FatCreate

  // ----- empty directories -----

  ghost predicate EmptyDir(g: Geo, v: Vol, x: nat)
    requires Shape(g, v)
  {
    forall m: Name :: Entry(g, v, x, m).None?
  }

  lemma ProperIsEntry(g: Geo, v: Vol, b: Book, x: nat, k: nat) returns (m: Name)
    requires Inv(g, v, b) && x in b.dirs
    requires InArea(v.area, Secs(g, b, x)) && k < 16 * |Secs(g, b, x)| && Proper(Slot(v.area, Secs(g, b, x), k))
    ensures Entry(g, v, x, m).Some?
  {
    hide Inv, Entry, FoundAt, EndsAt, EntOk, Find;
    SlotFacts(g, v, b, x, k);
    var s := Slot(v.area, Secs(g, b, x), k);
    m := s[..11];
    assert s[0] == m[0];
    InvRoot(g, v, b);
    var f := EntryFacts(g, v, b, x, m);
    if Entry(g, v, x, m).None? {
      AbsentSlot(g, v, b, x, m, k, f);
    }
  }

  lemma InvDirSecs(g: Geo, v: Vol, b: Book, x: nat)
    requires Inv(g, v, b) && x in b.dirs
    ensures (IsRoot16(g, x) || x in b.chains) && DirSecs(g, v.fat, x) == Secs(g, b, x)
    ensures InArea(v.area, Secs(g, b, x)) && ZeroTail(v.area, Secs(g, b, x))
  {
    hide FatOk, ZeroTail, UniqueNames, SlotOk;
    DirSecsAreBooked(g, v, b, x);
    assert DirOk(g, v, b, x);
  }

  lemma NoneFound(g: Geo, v: Vol, b: Book, x: nat, m: Name)
    requires Inv(g, v, b) && x in b.dirs && (IsRoot16(g, x) || x in b.chains)
    requires InArea(v.area, Secs(g, b, x)) && NoEntries(v.area, Secs(g, b, x))
    ensures Shape(g, v) && Entry(g, v, x, m).None?
  {
    hide Inv, Entry, EntOk, EndsAt, Find;
    InvRoot(g, v, b);
    var f := EntryFacts(g, v, b, x, m);
  }

  /** The emptiness scan is right: it hits exactly when the directory has an entry. */
  lemma EmptyScan(g: Geo, v: Vol, b: Book, x: nat, r: Scan, k: nat, buf: seq<byte>)
    requires Inv(g, v, b) && x in b.dirs && InArea(v.area, DirSecs(g, v.fat, x)) && !r.Broken?
    requires ScanOk(g, v.area, DirSecs(g, v.fat, x), AnyEntry, r, k, buf)
    ensures r.Hit? <==> !EmptyDir(g, v, x)
    ensures !r.Hit? ==> NoEntries(v.area, DirSecs(g, v.fat, x))
  {
    hide Inv, Entry, EntOk, EndsAt, FoundAt, Find, DirSecs;
    InvRoot(g, v, b);
    SlotFacts(g, v, b, x, k);
    InvDirSecs(g, v, b, x);
    var secs := Secs(g, b, x);
    if r.Hit? {
      var m := ProperIsEntry(g, v, b, x, k);
    } else {
      forall i | 0 <= i < 16 * |secs|
        ensures !Live(Slot(v.area, secs, i)) || (Dot(Slot(v.area, secs, i)) && !IsVolumeLabel(Slot(v.area, secs, i)))
      {
        SlotFacts(g, v, b, x, i);
      }
      forall m: Name ensures Entry(g, v, x, m).None? {
        NoneFound(g, v, b, x, m);
      }
    }
  }

  // ----- paths while a chain is released -----

  /** Every step of the path looks up a name in a directory of `dirs`, and no exempt one. */
  ghost predicate Clear(g: Geo, v: Vol, x: nat, path: seq<Name>, dirs: set<nat>, ex: set<(nat, Name)>)
    requires Shape(g, v)
    decreases |path|
  {
    path != [] ==>
      && x in dirs && (x, path[0]) !in ex
      && (|path| > 1 ==>
            && Entry(g, v, x, path[0]).Some? && Entry(g, v, x, path[0]).value.IsDir()
            && Clear(g, v, Entry(g, v, x, path[0]).value.head, path[1..], dirs, ex))
  }

  lemma {:induction false} KeepsResolve(g: Geo, v: Vol, v': Vol, x: nat, path: seq<Name>, dirs: set<nat>,
                                        ex: set<(nat, Name)>)
    requires Keeps(g, v, v', dirs, ex) && Clear(g, v, x, path, dirs, ex) && ResolveFrom(g, v, x, path).Found?
    ensures ResolveFrom(g, v', x, path) == ResolveFrom(g, v, x, path)
    decreases |path|
  {
    assert Entry(g, v', x, path[0]) == Entry(g, v, x, path[0]);
    if |path| > 1 {
      KeepsResolve(g, v, v', Entry(g, v, x, path[0]).value.head, path[1..], dirs, ex);
    }
  }

  lemma {:induction false} KeepsWalkable(g: Geo, v: Vol, v': Vol, x: nat, path: seq<Name>, dirs: set<nat>,
                                         ex: set<(nat, Name)>)
    requires Keeps(g, v, v', dirs, ex) && Clear(g, v, x, path, dirs, ex)
    ensures Walkable(g, v', x, path)
    decreases |path|
  {
    if |path| > 1 {
      assert Entry(g, v', x, path[0]) == Entry(g, v, x, path[0]);
      KeepsWalkable(g, v, v', Entry(g, v, x, path[0]).value.head, path[1..], dirs, ex);
    }
  }

  lemma NotEmptyDir(g: Geo, v: Vol, x: nat, n: Name, h: nat)
    requires Shape(g, v) && EmptyDir(g, v, h)
    ensures Entry(g, v, x, n).Some? ==> x != h
  {
    hide Entry;
  }

  /** No directory on the way to a found entry is empty, so releasing an empty one is clear of the path. */
  lemma {:induction false} ClearOfEmpty(g: Geo, v: Vol, b: Book, x: nat, path: seq<Name>, h: nat)
    requires Inv(g, v, b) && x in b.dirs && ResolveFrom(g, v, x, path).Found? && EmptyDir(g, v, h)
    ensures Clear(g, v, x, path, b.dirs - {h}, {})
    decreases |path|
  {
    hide Inv, Entry, FoundAt, EndsAt, Find, Slot, EmptyDir;
    InvRoot(g, v, b);
    NotEmptyDir(g, v, x, path[0], h);
    if |path| > 1 {
      var k := EntryFacts(g, v, b, x, path[0]);
      ClearOfEmpty(g, v, b, Entry(g, v, x, path[0]).value.head, path[1..], h);
    }
  }

  /** A path to an entry that cannot be passed through does not pass through it. */
  lemma {:induction false} ClearOfEntry(g: Geo, v: Vol, x: nat, path: seq<Name>, dirs: set<nat>, y: nat, n: Name)
    requires Shape(g, v) && Clear(g, v, x, path, dirs, {}) && path != []
    requires Entry(g, v, y, n).Some? && Entry(g, v, y, n).value.IsDir() ==> Entry(g, v, y, n).value.head !in dirs
    ensures Clear(g, v, x, path[..|path| - 1], dirs, {(y, n)})
    decreases |path|
  {
    if |path| > 1 {
      var init := path[..|path| - 1];
      ClearOfEntry(g, v, Entry(g, v, x, path[0]).value.head, path[1..], dirs, y, n);
      assert path[1..][..|path| - 2] == init[1..];
    }
  }

  // ----- the volume after the chain of an entry is released -----

  function Released(g: Geo, v: Vol, e: Ent): Vol {
    if e.head >= 2 then v.(fat := FreeFrom(g, v.fat, e.head)) else v
  }

  /** The directories that remain when the entry `e` goes. */
  function Remaining(b: Book, e: Ent): set<nat> {
    if e.IsDir() then b.dirs - {e.head} else b.dirs
  }

  lemma HeadChain(g: Geo, v: Vol, b: Book, h: nat)
    requires Inv(g, v, b) && h in b.chains
    ensures IsChain(g, v.fat, b.chains[h]) && b.chains[h] != [] && b.chains[h][0] == h && g.InData(h) && h >= 2
  {
    hide DirOk, FatOk;
    HeadsAreClusters(g, v.fat, b.chains, h);
  }

  lemma ZeroHead(g: Geo, v: Vol, b: Book)
    requires Inv(g, v, b)
    ensures 0 !in b.chains
  {
    hide Inv, IsChain;
    if 0 in b.chains { HeadChain(g, v, b, 0); }
  }

  lemma ReleasedFacts(g: Geo, v: Vol, b: Book, x: nat, n: Name)
    requires Inv(g, v, b) && x in b.dirs && Entry(g, v, x, n).Some?
    ensures var e := Entry(g, v, x, n).value;
      var v' := Released(g, v, e);
      && |v'.fat| == |v.fat| && FatOk(g, v'.fat) && (e.head < 2 || g.InData(e.head))
      && (forall c :: 0 <= c < |v.fat| ==>
            v'.fat[c] == if e.head in b.chains && c in b.chains[e.head] then 0 else v.fat[c])
      && FreeClusters(g, v'.fat) == FreeClusters(g, v.fat) + ChainLength(g, v, e)
  {
    hide Inv, Entry, FoundAt, EndsAt, Find, Slot, FatOk, FreeFrom, FreeClusters, ChainLength, IsChain;
    InvRoot(g, v, b);
    InvTable(g, v, b);
    var k := EntryFacts(g, v, b, x, n);
    var e := Entry(g, v, x, n).value;
    if e.head == 0 {
      ZeroHead(g, v, b);
      NoChainNoLength(g, v, e);
    } else {
      HeadChain(g, v, b, e.head);
      FreeFromChain(g, v.fat, b.chains[e.head]);
      ChainLengthIsBooked(g, v, b, e);
      FreedFatOk(g, v.fat, Released(g, v, e).fat, b.chains[e.head]);
    }
  }

  lemma FreedFatOk(g: Geo, fat: seq<nat>, fat': seq<nat>, ch: seq<Cluster>)
    requires g.Ok() && FatOk(g, fat) && IsChain(g, fat, ch) && |fat'| == |fat|
    requires forall c :: 0 <= c < |fat| ==> fat'[c] == if c in ch then 0 else fat[c]
    ensures FatOk(g, fat')
  {
  }

  /** Chains other than the released one are still whole. */
  lemma ReleasedChains(g: Geo, v: Vol, b: Book, x: nat, n: Name, y: nat)
    requires Inv(g, v, b) && x in b.dirs && Entry(g, v, x, n).Some? && y in b.chains
    requires y != Entry(g, v, x, n).value.head
    ensures IsChain(g, Released(g, v, Entry(g, v, x, n).value).fat, b.chains[y])
  {
    ReleasedFacts(g, v, b, x, n);
    var h := Entry(g, v, x, n).value.head;
    var ch := b.chains[y];
    assert IsChain(g, v.fat, ch);
    forall i | 0 <= i < |ch| ensures h in b.chains ==> ch[i] !in b.chains[h] {
      if h in b.chains {
        assert Disjoint(ch, b.chains[h]);
        assert ch[i] in ch;
      }
    }
  }

  lemma ReleasedDirs(g: Geo, v: Vol, b: Book, x: nat, n: Name, y: nat)
    requires Inv(g, v, b) && x in b.dirs && Entry(g, v, x, n).Some?
    requires y in Remaining(b, Entry(g, v, x, n).value)
    ensures WalkableDir(g, Released(g, v, Entry(g, v, x, n).value), y)
    ensures DirSecs(g, Released(g, v, Entry(g, v, x, n).value).fat, y) == DirSecs(g, v.fat, y)
  {
    var k := EntryFacts(g, v, b, x, n);
    ReleasedFacts(g, v, b, x, n);
    if !IsRoot16(g, y) {
      assert y != Entry(g, v, x, n).value.head;
      ReleasedChains(g, v, b, x, n, y);
      ChainOfChain(g, Released(g, v, Entry(g, v, x, n).value).fat, b.chains[y]);
      ChainOfChain(g, v.fat, b.chains[y]);
    }
  }

  lemma ReleasingChanges(g: Geo, v: Vol, b: Book, x: nat, n: Name, w: Vol, c: nat)
    requires Inv(g, v, b) && x in b.dirs && Entry(g, v, x, n).Some?
    requires Releasing(w, v, Released(g, v, Entry(g, v, x, n).value)) && c < |v.fat| && w.fat[c] != v.fat[c]
    ensures var h := Entry(g, v, x, n).value.head; h in b.chains && g.InData(c) && c in b.chains[h]
  {
    ReleasedFacts(g, v, b, x, n);
    InChain(g, v.fat, b.chains[Entry(g, v, x, n).value.head], c);
  }

  lemma RemainingDirs(g: Geo, v: Vol, b: Book, x: nat, n: Name)
    requires Inv(g, v, b) && x in b.dirs && Entry(g, v, x, n).Some?
    ensures var e := Entry(g, v, x, n).value;
            if e.head in b.chains then Remaining(b, e) == b.dirs - {e.head} else !e.IsDir()
  {
    var k := EntryFacts(g, v, b, x, n);
  }

  /** Any state between the volume and the released one keeps all other entries. */
  lemma ReleasingKeeps(g: Geo, v: Vol, b: Book, x: nat, n: Name, w: Vol)
    requires Inv(g, v, b) && x in b.dirs && Entry(g, v, x, n).Some?
    requires Releasing(w, v, Released(g, v, Entry(g, v, x, n).value))
    ensures Keeps(g, v, w, Remaining(b, Entry(g, v, x, n).value), {(x, n)})
  {
    hide DirOk, ChainsOk, BookOk, FatOk, Entry, Released, Legible;
    forall c | 0 <= c < |v.fat| && w.fat[c] != v.fat[c]
      ensures Entry(g, v, x, n).value.head in b.chains && g.InData(c)
      ensures c in b.chains[Entry(g, v, x, n).value.head]
    {
      ReleasingChanges(g, v, b, x, n, w, c);
    }
    RemainingDirs(g, v, b, x, n);
    ReleasedFacts(g, v, b, x, n);
    ReleasingFatOk(g, w, v, Released(g, v, Entry(g, v, x, n).value));
    if Entry(g, v, x, n).value.head in b.chains {
      FreeKeeps(g, v, b, x, n, w);
    } else {
      assert w.fat == v.fat;
      SameSelf(g, v, b);
      SameKeeps(g, v, w, b.dirs, {}, {});
    }
  }

  /** The parent is still found while and after the chain is released. */
  lemma ParentStillFound(g: Geo, v: Vol, b: Book, path: seq<Name>, x: nat)
    requires Inv(g, v, b) && path != [] && Resolve(g, v, path).Found? && ParentOf(g, v, path) == Dir(x)
    requires var e := Resolve(g, v, path).ent; e.IsDir() ==> EmptyDir(g, v, e.head)
    ensures var e := Resolve(g, v, path).ent;
      var v' := Released(g, v, e);
      && Shape(g, v') && x in b.dirs && Entry(g, v, x, Leaf(path)) == Some(e) && x in Remaining(b, e)
      && Walkable(g, v', g.rootCluster, path[..|path| - 1])
      && ParentOf(g, v', path) == Dir(x)
  {
    hide Inv, EmptyDir, Keeps, Clear, Entry, ResolveFrom, Walkable, Released, FatOk;
    InvRoot(g, v, b);
    PathFacts(g, v, b, path);
    var n, e := Leaf(path), Resolve(g, v, path).ent;
    var v' := Released(g, v, e);
    var dirs := Remaining(b, e);
    ReleasedShape(g, v, e);
    ReleasingKeeps(g, v, b, x, n, v');
    NotTheEmptyOne(g, v, x, n, e);
    if e.IsDir() {
      ClearOfEmpty(g, v, b, g.rootCluster, path, e.head);
    } else {
      ClearAny(g, v, b, g.rootCluster, path);
    }
    ClearOfEntry(g, v, g.rootCluster, path, dirs, x, n);
    var init := path[..|path| - 1];
    KeepsWalkable(g, v, v', g.rootCluster, init, dirs, {(x, n)});
    if init != [] {
      InitFound(g, v, path, x);
      KeepsResolve(g, v, v', g.rootCluster, init, dirs, {(x, n)});
    }
  }

  lemma ReleasedShape(g: Geo, v: Vol, e: Ent)
    requires Shape(g, v)
    ensures Shape(g, Released(g, v, e)) && Releasing(Released(g, v, e), v, Released(g, v, e))
  {
    hide FreeFrom;
    FreeFromClears(g, v.fat, e.head);
  }

  lemma NotTheEmptyOne(g: Geo, v: Vol, x: nat, n: Name, e: Ent)
    requires Shape(g, v) && Entry(g, v, x, n) == Some(e) && (e.IsDir() ==> EmptyDir(g, v, e.head))
    ensures e.IsDir() ==> x != e.head
  {
    hide Entry;
  }

  /** What a path's parent is found by. */
  lemma InitFound(g: Geo, v: Vol, path: seq<Name>, x: nat)
    requires Shape(g, v) && |path| > 1 && ParentOf(g, v, path) == Dir(x)
    ensures ResolveFrom(g, v, g.rootCluster, path[..|path| - 1]).Found?
  {
    hide ResolveFrom;
  }

  lemma {:induction false} ClearAny(g: Geo, v: Vol, b: Book, x: nat, path: seq<Name>)
    requires Inv(g, v, b) && x in b.dirs && ResolveFrom(g, v, x, path).Found?
    ensures Clear(g, v, x, path, b.dirs, {})
    decreases |path|
  {
    if |path| > 1 {
      var k := EntryFacts(g, v, b, x, path[0]);
      ClearAny(g, v, b, Entry(g, v, x, path[0]).value.head, path[1..]);
    }
  }

  // ----- the volume after the whole call -----

  function UnlinkBook(b: Book, e: Ent): Book {
    Book(Remaining(b, e), b.chains - {e.head}, b.owner - {e.head})
  }

  /** The book after slot `k` is marked deleted: nobody owns the head any more, then nobody lists it. */
  lemma ForgetHead(g: Geo, v: Vol, b: Book, e: Ent)
    requires Inv(g, v, b.(owner := b.owner - {e.head})) && e.head != g.rootCluster
    requires !e.IsDir() ==> e.head !in b.dirs
    ensures Inv(g, v, UnlinkBook(b, e))
  {
    var b1 := b.(owner := b.owner - {e.head});
    var b2 := b1.(dirs := Remaining(b, e));
    if e.IsDir() {
      DropDir(g, v, b1, e.head);
    }
    DropChain(g, v, b2, e.head);
    assert UnlinkBook(b, e) == b2.(chains := b2.chains - {e.head});
  }

  /** An entry with no chain at all: only its slot goes. */
  lemma ForgetNothing(b: Book, e: Ent)
    requires e.head !in b.chains && e.head !in b.owner && !e.IsDir()
    ensures UnlinkBook(b, e) == b && b.(owner := b.owner - {e.head}) == b
  {
    assert b.chains - {e.head} == b.chains && b.owner - {e.head} == b.owner;
  }

  lemma DeletedInv(g: Geo, v: Vol, b: Book, x: nat, k: nat, n: Name)
    requires Inv(g, v, b) && x in b.dirs
    requires InArea(v.area, DirSecs(g, v.fat, x)) && FoundAt(v.area, DirSecs(g, v.fat, x), n, k)
    requires Entry(g, v, x, n) == Some(EntOf(Slot(v.area, DirSecs(g, v.fat, x), k)))
    ensures var s := Slot(v.area, DirSecs(g, v.fat, x), k);
            var v' := v.(area := PutSlot(v.area, DirSecs(g, v.fat, x), k, s[0 := 0xE5]));
            && Inv(g, v', UnlinkBook(b, EntOf(s)))
            && Same(g, v, v', b.dirs, {(x, n)}) && Entry(g, v', x, n) == None
  {
    DirSecsAreBooked(g, v, b, x);
    var f := EntryFacts(g, v, b, x, n);
    var e := Entry(g, v, x, n).value;
    DeleteEntry(g, v, b, x, k, n);
    assert e.head in b.chains ==> g.InData(b.chains[e.head][0]);
    if e.head == 0 {
      ForgetNothing(b, e);
    } else {
      ForgetHead(g, v.(area := PutSlot(v.area, Secs(g, b, x), k, Slot(v.area, Secs(g, b, x), k)[0 := 0xE5])), b, e);
    }
  }

  /** Releasing the chain of a forgotten head touches nothing that is still in the book. */
  lemma ReleaseForgotten(g: Geo, v: Vol, b: Book, x: nat, n: Name, v1: Vol)
    requires Inv(g, v, b) && x in b.dirs && Entry(g, v, x, n).Some?
    requires Inv(g, v1, UnlinkBook(b, Entry(g, v, x, n).value)) && v1.fat == v.fat
    ensures var e := Entry(g, v, x, n).value;
            var v2 := v1.(fat := Released(g, v, e).fat);
            Inv(g, v2, UnlinkBook(b, e)) && Same(g, v1, v2, Remaining(b, e), {})
  {
    hide Released;
    var e := Entry(g, v, x, n).value;
    var b' := UnlinkBook(b, e);
    ReleasedFacts(g, v, b, x, n);
    var v2 := v1.(fat := Released(g, v, e).fat);
    forall h, i | h in b'.chains && 0 <= i < |b'.chains[h]| && b'.chains[h][i] < |v1.fat|
      ensures v2.fat[b'.chains[h][i]] == v1.fat[b'.chains[h][i]]
    {
      assert b'.chains[h][i] in b.chains[h];
      if e.head in b.chains { assert Disjoint(b.chains[h], b.chains[e.head]); }
    }
    OffBook(g, v1, b', v2);
  }

  // ----- fat_unlink -----

  /** What fat_unlink promises about an entry `e` called `n` in directory `x`. */
  ghost predicate RemovedFrom(g: Geo, v: Vol, b: Book, v': Vol, b': Book, x: nat, n: Name, e: Ent, st: Status)
    requires g.Ok() && Shape(g, v) && Shape(g, v')
  {
    if e.IsDir() && !EmptyDir(g, v, e.head) then st == NotEmpty && v' == v && b' == b
    else
      && st == Ok && Entry(g, v', x, n) == None && b'.dirs == Remaining(b, e)
      && Same(g, v, v', b'.dirs, {(x, n)})
      && FreeClusters(g, v'.fat) == FreeClusters(g, v.fat) + ChainLength(g, v, e)
  }

  ghost predicate UnlinkSpec(g: Geo, v: Vol, b: Book, v': Vol, b': Book, path: seq<Name>, st: Status)
    requires g.Ok() && Shape(g, v) && Shape(g, v') && path != []
  {
    match Resolve(g, v, path)
    case Miss(err) => st == err && v' == v && b' == b
    case Found(e) =>
      && ParentOf(g, v, path).Dir? && ParentOf(g, v, path).id in b.dirs
      && RemovedFrom(g, v, b, v', b', ParentOf(g, v, path).id, Leaf(path), e, st)
  }

  /** At every moment of the call all entries but the removed one are kept. */
  ghost predicate UnlinkStep(g: Geo, v: Vol, b: Book, h: seq<Vol>, v': Vol, b': Book, h': seq<Vol>, path: seq<Name>)
    requires Shape(g, v) && path != []
  {
    && Inv(g, v', b') && h <= h'
    && KeptSince(g, v, b'.dirs, if ParentOf(g, v, path).Dir? then {(ParentOf(g, v, path).id, Leaf(path))} else {},
                 h', |h|)
  }

  /** The volume after the whole call: the chain released, slot `k` of the parent marked deleted. */
  function Unlinked(g: Geo, v: Vol, x: nat, k: nat): Vol
    requires Shape(g, v) && k < 16 * |DirSecs(g, v.fat, x)|
  {
    DirSecsInArea(g, v, x);
    var secs := DirSecs(g, v.fat, x);
    var s := Slot(v.area, secs, k);
    Vol(Released(g, v, EntOf(s)).fat, PutSlot(v.area, secs, k, s[0 := 0xE5]))
  }

  /** Slot `k` of the path's parent `x` is where the path's entry is, and the entry may go. */
  ghost predicate MayGo(g: Geo, v: Vol, b: Book, path: seq<Name>, x: nat, k: nat) {
    && Inv(g, v, b) && path != [] && Resolve(g, v, path).Found? && ParentOf(g, v, path) == Dir(x)
    && (var e := Resolve(g, v, path).ent; e.IsDir() ==> EmptyDir(g, v, e.head))
    && InArea(v.area, DirSecs(g, v.fat, x)) && FoundAt(v.area, DirSecs(g, v.fat, x), Leaf(path), k)
    && Resolve(g, v, path).ent == EntOf(Slot(v.area, DirSecs(g, v.fat, x), k))
  }

  lemma UnlinkDirs(b: Book, e: Ent)
    ensures UnlinkBook(b, e).dirs == Remaining(b, e)
    ensures Remaining(b, e) <= b.dirs
  {
  }

  lemma SameEntry(g: Geo, v: Vol, v': Vol, dirs: set<nat>, x: nat, n: Name)
    requires Same(g, v, v', dirs, {}) && x in dirs
    ensures Shape(g, v) && Shape(g, v') && Entry(g, v', x, n) == Entry(g, v, x, n)
  {
    hide Entry;
  }

  lemma UnlinkRemoves(g: Geo, v: Vol, b: Book, path: seq<Name>, x: nat, k: nat)
    requires MayGo(g, v, b, path, x, k)
    ensures var e := Resolve(g, v, path).ent;
      var v' := Unlinked(g, v, x, k);
      && Inv(g, v', UnlinkBook(b, e)) && x in b.dirs
      && RemovedFrom(g, v, b, v', UnlinkBook(b, e), x, Leaf(path), e, Ok)
  {
    hide Inv, Released, PutSlot, EmptyDir, Entry, Same, FatOk, FreeClusters, ChainLength, ResolveFrom, UnlinkBook,
      Legible;
    InvRoot(g, v, b);
    var n, e := Leaf(path), Resolve(g, v, path).ent;
    ParentStillFound(g, v, b, path, x);
    ReleasedFacts(g, v, b, x, n);
    DeletedInv(g, v, b, x, k, n);
    var s := Slot(v.area, DirSecs(g, v.fat, x), k);
    var v1, v2 := v.(area := PutSlot(v.area, DirSecs(g, v.fat, x), k, s[0 := 0xE5])), Unlinked(g, v, x, k);
    ReleaseForgotten(g, v, b, x, n, v1);
    InvRoot(g, v2, UnlinkBook(b, e));
    UnlinkDirs(b, e);
    SameWeaken(g, v, v1, b.dirs, Remaining(b, e), {(x, n)}, {(x, n)});
    SameTrans(g, v, v1, v2, Remaining(b, e), {(x, n)}, {});
    SameEntry(g, v1, v2, Remaining(b, e), x, n);
    assert {(x, n)} + {} == {(x, n)};
  }

  lemma UnlinkDone(g: Geo, v: Vol, b: Book, h: seq<Vol>, h1: seq<Vol>, path: seq<Name>, x: nat, k: nat)
    requires MayGo(g, v, b, path, x, k) && h <= h1
    requires forall k :: |h| <= k < |h1| ==> Releasing(h1[k], v, Released(g, v, Resolve(g, v, path).ent))
    ensures var e := Resolve(g, v, path).ent;
      var v' := Unlinked(g, v, x, k);
      && Shape(g, v') && Inv(g, v', UnlinkBook(b, e))
      && UnlinkSpec(g, v, b, v', UnlinkBook(b, e), path, Ok)
      && UnlinkStep(g, v, b, h, v', UnlinkBook(b, e), h1 + [v'], path)
  {
    hide Inv, Released, Unlinked, EmptyDir, Entry, Same, Keeps, ResolveFrom, Releasing, FreeClusters, UnlinkBook;
    InvRoot(g, v, b);
    var n, e, b' := Leaf(path), Resolve(g, v, path).ent, UnlinkBook(b, Resolve(g, v, path).ent);
    var v' := Unlinked(g, v, x, k);
    UnlinkRemoves(g, v, b, path, x, k);
    ParentStillFound(g, v, b, path, x);
    InvRoot(g, v', b');
    UnlinkDirs(b, e);
    SameKeeps(g, v, v', b'.dirs, {(x, n)}, {(x, n)});
    forall j | |h| <= j < |h1| + 1 ensures Keeps(g, v, (h1 + [v'])[j], b'.dirs, {(x, n)}) {
      if j < |h1| {
        ReleasingKeeps(g, v, b, x, n, h1[j]);
      }
    }
  }

  /** On a sound volume the second lookup, in the parent and by short name, finds the resolved entry again. */
  lemma SecondLookup(g: Geo, v: Vol, b: Book, path: seq<Name>, x: nat, r: Scan, k: nat, buf: seq<byte>)
    requires Inv(g, v, b) && path != [] && Resolve(g, v, path).Found? && ParentOf(g, v, path) == Dir(x) && x in b.dirs
    requires InArea(v.area, DirSecs(g, v.fat, x)) && !r.Broken?
    requires ScanOk(g, v.area, DirSecs(g, v.fat, x), ByName(Leaf(path)), r, k, buf)
    ensures var secs := DirSecs(g, v.fat, x);
      && r.Hit? && r.i < 16 && |buf| == 512 && k < 16 * |secs| && secs[k / 16] < |v.area|
      && r.lba == g.AreaLba() + secs[k / 16] && r.i == k % 16 && buf == v.area[secs[k / 16]]
      && BufSlot(buf, r.i) == Slot(v.area, secs, k)
      && FoundAt(v.area, secs, Leaf(path), k)
      && Resolve(g, v, path).ent == EntOf(Slot(v.area, secs, k))
      && ((Resolve(g, v, path).ent.IsDir() ==> EmptyDir(g, v, Resolve(g, v, path).ent.head)) ==>
        MayGo(g, v, b, path, x, k))
  {
    PathFacts(g, v, b, path);
    ScanIsEntry(g, v, x, Leaf(path), r, k, buf);
    SlotInSector(v.area, DirSecs(g, v.fat, x), k / 16, k % 16);
  }

  lemma UnlinkFacts(g: Geo, v: Vol, b: Book, path: seq<Name>)
    requires Inv(g, v, b) && path != [] && Resolve(g, v, path).Found?
    ensures ParentOf(g, v, path).Dir? && ParentOf(g, v, path).id in b.dirs
    ensures var e := Resolve(g, v, path).ent;
      && (e.IsDir() ==> e.head in b.dirs && g.InData(e.head) && WalkableDir(g, v, e.head) && !IsRoot16(g, e.head))
      && (e.head < 2 || g.InData(e.head))
      && Entry(g, v, ParentOf(g, v, path).id, Leaf(path)) == Some(e)
  {
    PathFacts(g, v, b, path);
    var e, x := Resolve(g, v, path).ent, ParentOf(g, v, path).id;
    ReleasedFacts(g, v, b, x, Leaf(path));
    var k := EntryFacts(g, v, b, x, Leaf(path));
    if e.IsDir() {
      SoundDirWalkable(g, v, b, e.head);
      HeadsAreClusters(g, v.fat, b.chains, e.head);
    }
  }

  lemma ReleasedScan(g: Geo, v: Vol, b: Book, path: seq<Name>, x: nat)
    requires Inv(g, v, b) && path != [] && Resolve(g, v, path).Found? && ParentOf(g, v, path) == Dir(x)
    requires var e := Resolve(g, v, path).ent; e.IsDir() ==> EmptyDir(g, v, e.head)
    ensures var v' := Released(g, v, Resolve(g, v, path).ent);
      && Shape(g, v') && FatOk(g, v'.fat) && x in b.dirs
      && Walkable(g, v', g.rootCluster, path[..|path| - 1]) && ParentOf(g, v', path) == Dir(x)
      && WalkableDir(g, v', x) && DirSecs(g, v'.fat, x) == DirSecs(g, v.fat, x) && v'.area == v.area
  {
    ParentStillFound(g, v, b, path, x);
    ReleasedFacts(g, v, b, x, Leaf(path));
    ReleasedDirs(g, v, b, x, Leaf(path), x);
  }

  /** Looks the removed entry up again, in its parent, and marks its slot deleted. */
  method MarkDeleted(fs: Volume, path: seq<Name>, ghost v: Vol, ghost b: Book, ghost x: nat) returns (ghost k: nat)
    requires fs.Valid() && Inv(fs.g, v, b) && path != []
    requires Resolve(fs.g, v, path).Found? && ParentOf(fs.g, v, path) == Dir(x)
    requires var e := Resolve(fs.g, v, path).ent; e.IsDir() ==> EmptyDir(fs.g, v, e.head)
    requires fs.vol == Released(fs.g, v, Resolve(fs.g, v, path).ent)
    modifies fs.Arrays(), fs`vol, fs`hist, fs`cacheNext
    ensures fs.Valid() && MayGo(fs.g, v, b, path, x, k) && fs.vol == Unlinked(fs.g, v, x, k)
    ensures fs.hist == old(fs.hist) + [fs.vol]
  {
    hide Volume.Valid, Inv, FatOk, Walkable, EmptyDir, WalkableDir;
    ReleasedScan(fs.g, v, b, path, x);
    var parent := ResolveParent(fs, path);
    var r;
    r, k := ScanDir(fs, parent.id, ByName(Leaf(path)));
    SecondLookup(fs.g, v, b, path, x, r, k, fs.buf[..]);
    var s := BufSlot(fs.buf[..], r.i);
    WriteSlot(fs, r.lba, r.i, s[0 := 0xE5], DirSecs(fs.g, v.fat, x), k);
  }

  /** Releases the entry's chain, then finds its slot again and marks it deleted. */
  method RemoveEntry(fs: Volume, path: seq<Name>, e: Ent, ghost x: nat) returns (st: Status)
    requires Sound(fs) && path != []
    requires Resolve(fs.g, fs.vol, path) == Found(e) && ParentOf(fs.g, fs.vol, path) == Dir(x)
    requires e.IsDir() ==> EmptyDir(fs.g, fs.vol, e.head)
    modifies fs.Arrays(), fs`vol, fs`hist, fs`cacheNext, fs`book
    ensures Sound(fs)
    ensures UnlinkSpec(fs.g, old(fs.vol), old(fs.book), fs.vol, fs.book, path, st)
    ensures UnlinkStep(fs.g, old(fs.vol), old(fs.book), old(fs.hist), fs.vol, fs.book, fs.hist, path)
    ensures st == Ok
  {
    hide Volume.Valid, Inv, FatOk, EmptyDir, UnlinkSpec, UnlinkStep, Releasing, MayGo, Unlinked;
    ghost var v, b, h := fs.vol, fs.book, fs.hist;
    PathFacts(fs.g, v, b, path);
    UnlinkFacts(fs.g, v, b, path);
    if e.head >= 2 {
      FreeClusterChain(fs, e.head);
    }
    ghost var h1 := fs.hist;
    ghost var k := MarkDeleted(fs, path, v, b, x);
    UnlinkDone(fs.g, v, b, h, h1, path, x, k);
    fs.SetBook(UnlinkBook(b, e));
    st := Ok;
  }

  /** Whether a walk of the directory meets any entry other than "." and "..". */
  method IsEmptyDir(fs: Volume, x: nat) returns (empty: bool)
    requires Sound(fs) && x in fs.book.dirs
    modifies fs.Scratch(), fs`cacheNext
    ensures fs.Valid() && empty == EmptyDir(fs.g, fs.vol, x)
  {
    hide Volume.Valid, EmptyDir;
    SoundDirWalkable(fs.g, fs.vol, fs.book, x);
    DirSecsInArea(fs.g, fs.vol, x);
    var r, k := ScanDir(fs, x, AnyEntry);
    EmptyScan(fs.g, fs.vol, fs.book, x, r, k, fs.buf[..]);
    empty := !r.Hit?;
  }

  lemma UnlinkNothing(g: Geo, v: Vol, b: Book, h: seq<Vol>, path: seq<Name>, st: Status)
    requires Inv(g, v, b) && path != []
    requires match Resolve(g, v, path)
             case Miss(err) => st == err
             case Found(e) => st == NotEmpty && e.IsDir() && !EmptyDir(g, v, e.head)
    ensures UnlinkSpec(g, v, b, v, b, path, st) && UnlinkStep(g, v, b, h, v, b, h, path)
  {
    if Resolve(g, v, path).Found? {
      UnlinkFacts(g, v, b, path);
    }
    hide Inv, EmptyDir;
  }

  method FatUnlink(fs: Volume, path: seq<Name>) returns (st: Status)
    requires Sound(fs) && path != []
    modifies fs.Arrays(), fs`vol, fs`hist, fs`cacheNext, fs`book
    ensures Sound(fs)
    ensures UnlinkSpec(fs.g, old(fs.vol), old(fs.book), fs.vol, fs.book, path, st)
    ensures UnlinkStep(fs.g, old(fs.vol), old(fs.book), old(fs.hist), fs.vol, fs.book, fs.hist, path)
    ensures st != Ok ==> fs.hist == old(fs.hist)
  {
    hide Volume.Valid, Inv, FatOk, Walkable, UnlinkSpec, UnlinkStep, EmptyDir;
    ghost var v, b, h := fs.vol, fs.book, fs.hist;
    PathFacts(fs.g, v, b, path);
    var found := ResolvePath(fs, path);
    if found.Miss? {
      UnlinkNothing(fs.g, v, b, h, path, found.err);
      return found.err;
    }
    var e := found.ent;
    UnlinkFacts(fs.g, v, b, path);
    if e.IsDir() {
      var empty := IsEmptyDir(fs, e.head);
      if !empty {
        UnlinkNothing(fs.g, v, b, h, path, NotEmpty);
        return NotEmpty;
      }
    }
    st := RemoveEntry(fs, path, e, ParentOf(fs.g, v, path).id);
  }
}
