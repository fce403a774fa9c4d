/** fat_write_atomic: replacing a file through a temporary one, and what power loss can leave behind. */
module FatAtomic {
  import opened Basics
  import opened FatLayout
  import opened FatView
  import opened FatInv
  import opened FatSteps
  import opened FatVolume
  import opened FatAlloc
  import opened FatDir
  import opened FatGrow
  import opened FatData
  import opened FatCreate
  import opened FatUnlink
  import opened FatRename
  import opened FatAppend
  import opened FatFile
  import FatOnCard

  /** "_ATOMIC.TMP" as an 8.3 name. */
  function TempName(): Name {
    [0x5F, 0x41, 0x54, 0x4F, 0x4D, 0x49, 0x43, 0x20, 0x54, 0x4D, 0x50]
  }

  /** The temporary file lives in the directory of the file it will replace. */
  function TempPath(path: seq<Name>): (q: seq<Name>)
    requires path != []
    ensures q != []
  {
    path[..|path| - 1] + [TempName()]
  }

  lemma TempParent(g: Geo, v: Vol, path: seq<Name>)
    requires Shape(g, v) && path != []
    ensures ParentOf(g, v, TempPath(path)) == ParentOf(g, v, path) && Leaf(TempPath(path)) == TempName()
    ensures Leaf(path) == TempName() ==> TempPath(path) == path
  {
    assert TempPath(path)[..|path| - 1] == path[..|path| - 1];
  }

  // ----- files that stay readable -----

  /** A lookup that neither meets the entry `n` of `y` on its way nor ends at it is clear of that entry. */
  lemma {:induction false} ClearOther(g: Geo, v: Vol, x: nat, path: seq<Name>, dirs: set<nat>, y: nat, n: Name, z: nat)
    requires Shape(g, v) && path != [] && Clear(g, v, x, path, dirs, {})
    requires Entry(g, v, y, n).Some? && Entry(g, v, y, n).value.IsDir() ==> Entry(g, v, y, n).value.head !in dirs
    requires Dir(z) == if |path| == 1 then Dir(x) else AsDir(ResolveFrom(g, v, x, path[..|path| - 1]))
    requires (z, path[|path| - 1]) != (y, n)
    ensures Clear(g, v, x, path, dirs, {(y, n)})
    decreases |path|
  {
    if |path| > 1 {
      var init, head := path[..|path| - 1], Entry(g, v, x, path[0]).value.head;
      assert path[1..][..|path| - 2] == init[1..];
      assert path[1..][|path| - 2] == path[|path| - 1];
      ClearOther(g, v, head, path[1..], dirs, y, n, z);
    }
  }

  /** The entry `n` of `x` is about to go: it is missing, a file, or an empty directory. */
  ghost predicate Removable(g: Geo, v: Vol, x: nat, n: Name)
    requires Shape(g, v)
  {
    Entry(g, v, x, n).Some? && Entry(g, v, x, n).value.IsDir() ==> EmptyDir(g, v, Entry(g, v, x, n).value.head)
  }

  /** The directories that are left without the entry `n` of `x`. */
  ghost function Without(g: Geo, v: Vol, b: Book, x: nat, n: Name): set<nat>
    requires Shape(g, v)
  {
    if Entry(g, v, x, n).Some? then Remaining(b, Entry(g, v, x, n).value) else b.dirs
  }

  /** What another name in the same directory denotes can be reached without that entry. */
  lemma ClearWithout(g: Geo, v: Vol, b: Book, path: seq<Name>, x: nat, n: Name)
    requires Inv(g, v, b) && path != [] && Resolve(g, v, path).Found? && ParentOf(g, v, path) == Dir(x)
    requires Leaf(path) != n && Removable(g, v, x, n)
    ensures Clear(g, v, g.rootCluster, path, Without(g, v, b, x, n), {(x, n)})
  {
    hide Inv;
    InvRoot(g, v, b);
    if Entry(g, v, x, n).Some? && Entry(g, v, x, n).value.IsDir() {
      ClearOfEmpty(g, v, b, g.rootCluster, path, Entry(g, v, x, n).value.head);
    } else {
      ClearAny(g, v, b, g.rootCluster, path);
    }
    ClearOther(g, v, g.rootCluster, path, Without(g, v, b, x, n), x, n, x);
  }

  lemma ReadsKept(g: Geo, v: Vol, w: Vol, path: seq<Name>, bytes: seq<byte>, dirs: set<nat>, ex: set<(nat, Name)>)
    requires Shape(g, v) && path != [] && Reads(g, v, path, bytes) && Keeps(g, v, w, dirs, ex)
    requires Clear(g, v, g.rootCluster, path, dirs, ex)
    ensures CanRead(g, w, path, bytes)
  {
    KeepsResolve(g, v, w, g.rootCluster, path, dirs, ex);
    KeepsWalkable(g, v, w, g.rootCluster, path, dirs, ex);
    ClearEntry(g, v, g.rootCluster, path, dirs, ex);
  }

  /** On a sound volume, every file can be opened and read. */
  lemma SoundCanRead(g: Geo, v: Vol, b: Book, path: seq<Name>, bytes: seq<byte>)
    requires Inv(g, v, b) && path != [] && Reads(g, v, path, bytes)
    ensures CanRead(g, v, path, bytes)
  {
    PathFacts(g, v, b, path);
    SoundReadable(g, v, b, ParentOf(g, v, path).id, Leaf(path));
  }

  /** A clear lookup ends at an entry of one of the directories. */
  lemma {:induction false} ClearEntry(g: Geo, v: Vol, x: nat, path: seq<Name>, dirs: set<nat>, ex: set<(nat, Name)>)
    requires Shape(g, v) && path != [] && Clear(g, v, x, path, dirs, ex) && ResolveFrom(g, v, x, path).Found?
    ensures exists y, n: Name :: y in dirs && (y, n) !in ex && Entry(g, v, y, n) == Some(ResolveFrom(g, v, x, path).ent)
    decreases |path|
  {
    if |path| > 1 {
      ClearEntry(g, v, Entry(g, v, x, path[0]).value.head, path[1..], dirs, ex);
    } else {
      assert Entry(g, v, x, path[0]) == Some(ResolveFrom(g, v, x, path).ent);
    }
  }

  // ----- framing over several calls -----

  lemma KeptWeaken(g: Geo, v: Vol, dirs: set<nat>, dirs': set<nat>, ex: set<(nat, Name)>, ex': set<(nat, Name)>,
                   h: seq<Vol>, from: nat)
    requires KeptSince(g, v, dirs, ex, h, from) && dirs' <= dirs && ex <= ex'
    ensures KeptSince(g, v, dirs', ex', h, from)
  {
    forall k | from <= k < |h| ensures Keeps(g, v, h[k], dirs', ex') {
      assert Keeps(g, v, h[k], dirs, ex);
    }
  }

  /** A stretch of a run: only the names `ex` may have changed their meaning, at its end or on the way. */
  ghost predicate Stretch(g: Geo, v: Vol, h: seq<Vol>, v': Vol, b': Book, h': seq<Vol>, dirs: set<nat>,
                          ex: set<(nat, Name)>)
  {
    && Inv(g, v', b') && b'.dirs == dirs && Same(g, v, v', dirs, ex)
    && h <= h' && KeptSince(g, v, dirs, ex, h', |h|)
  }

  lemma StretchTrans(g: Geo, v: Vol, h: seq<Vol>, v1: Vol, b1: Book, h1: seq<Vol>, v2: Vol, b2: Book, h2: seq<Vol>,
                     dirs: set<nat>, dirs': set<nat>, ex: set<(nat, Name)>, ex': set<(nat, Name)>,
                     all: set<(nat, Name)>)
    requires Stretch(g, v, h, v1, b1, h1, dirs, ex) && Stretch(g, v1, h1, v2, b2, h2, dirs', ex')
    requires dirs' <= dirs && ex <= all && ex' <= all
    ensures Stretch(g, v, h, v2, b2, h2, dirs', all)
  {
    hide Inv, Same;
    SameWeaken(g, v, v1, dirs, dirs', ex, all);
    SameWeaken(g, v1, v2, dirs', dirs', ex', all);
    SameTrans(g, v, v1, v2, dirs', all, all);
    assert all + all == all;
    KeptWeaken(g, v, dirs, dirs', ex, all, h1, |h|);
    KeptWeaken(g, v1, dirs', dirs', ex', all, h2, |h1|);
    SameKeeps(g, v, v1, dirs', all, all);
    KeptTrans(g, v, v1, dirs', all, h1, h2, |h|);
  }

  lemma StretchWeaken(g: Geo, v: Vol, h: seq<Vol>, v1: Vol, b1: Book, h1: seq<Vol>,
                      dirs: set<nat>, ex: set<(nat, Name)>, ex': set<(nat, Name)>)
    requires Stretch(g, v, h, v1, b1, h1, dirs, ex) && ex <= ex'
    ensures Stretch(g, v, h, v1, b1, h1, dirs, ex')
  {
    hide Inv, Same;
    SameWeaken(g, v, v1, dirs, dirs, ex, ex');
    KeptWeaken(g, v, dirs, dirs, ex, ex', h1, |h|);
  }

  lemma ParentOnKeeps(g: Geo, v: Vol, b: Book, v': Vol, path: seq<Name>, x: nat)
    requires Inv(g, v, b) && path != [] && ParentOf(g, v, path) == Dir(x) && Keeps(g, v, v', b.dirs, {})
    ensures ParentOf(g, v', path) == Dir(x)
  {
    if |path| > 1 {
      InvRoot(g, v, b);
      var init := path[..|path| - 1];
      ClearAny(g, v, b, g.rootCluster, init);
      hide Inv;
      KeepsResolve(g, v, v', g.rootCluster, init, b.dirs, {});
    }
  }

  lemma ParentWithout(g: Geo, v: Vol, b: Book, v': Vol, path: seq<Name>, x: nat)
    requires Inv(g, v, b) && path != [] && ParentOf(g, v, path) == Dir(x) && Resolve(g, v, path).Found?
    requires Removable(g, v, x, Leaf(path)) && Keeps(g, v, v', Without(g, v, b, x, Leaf(path)), {(x, Leaf(path))})
    ensures ParentOf(g, v', path) == Dir(x) && x in Without(g, v, b, x, Leaf(path)) && Entry(g, v, x, Leaf(path)).Some?
  {
    hide Inv;
    InvRoot(g, v, b);
    var n, dirs := Leaf(path), Without(g, v, b, x, Leaf(path));
    PathFacts(g, v, b, path);
    ParentStillFound(g, v, b, path, x);
    var e := Entry(g, v, x, n).value;
    if e.IsDir() {
      ClearOfEmpty(g, v, b, g.rootCluster, path, e.head);
    } else {
      ClearAny(g, v, b, g.rootCluster, path);
    }
    ClearOfEntry(g, v, g.rootCluster, path, dirs, x, n);
    var init := path[..|path| - 1];
    if init != [] {
      KeepsResolve(g, v, v', g.rootCluster, init, dirs, {(x, n)});
    }
  }

  /** What fat_unlink does to a name of a known directory. */
  lemma UnlinkGone(g: Geo, v: Vol, b: Book, h: seq<Vol>, v': Vol, b': Book, h': seq<Vol>, path: seq<Name>, x: nat,
                   st: Status)
    requires Inv(g, v, b) && path != [] && ParentOf(g, v, path) == Dir(x) && Shape(g, v')
    requires UnlinkSpec(g, v, b, v', b', path, st) && UnlinkStep(g, v, b, h, v', b', h', path)
    ensures Removable(g, v, x, Leaf(path)) ==>
      && (st == Ok || st == NotFound) && (st == NotFound <==> Entry(g, v, x, Leaf(path)).None?)
      && Stretch(g, v, h, v', b', h', Without(g, v, b, x, Leaf(path)), {(x, Leaf(path))})
      && x in b'.dirs && Entry(g, v', x, Leaf(path)).None? && ParentOf(g, v', path) == Dir(x)
    ensures !Removable(g, v, x, Leaf(path)) ==> st == NotEmpty
    ensures !Removable(g, v, x, Leaf(path)) || Entry(g, v, x, Leaf(path)).None? ==> v' == v && b' == b
    ensures Stretch(g, v, h, v', b', h', b'.dirs, {(x, Leaf(path))}) && b'.dirs <= b.dirs && x in b.dirs
  {
    hide Inv;
    PathFacts(g, v, b, path);
    SameSelf(g, v, b);
    var n := Leaf(path);
    if Entry(g, v, x, n).Some? && Removable(g, v, x, n) {
      SameKeeps(g, v, v', b'.dirs, {(x, n)}, {(x, n)});
      ParentWithout(g, v, b, v', path, x);
    } else {
      SameWeaken(g, v, v, b.dirs, b.dirs, {}, {(x, n)});
    }
  }

  // ----- what can be read at every moment -----

  ghost predicate AllRead(g: Geo, h: seq<Vol>, from: nat, path: seq<Name>, bytes: seq<byte>) {
    forall k :: from <= k < |h| ==> CanRead(g, h[k], path, bytes)
  }

  lemma AllReadKept(g: Geo, v: Vol, path: seq<Name>, bytes: seq<byte>, dirs: set<nat>, ex: set<(nat, Name)>,
                    h: seq<Vol>, from: nat)
    requires Shape(g, v) && path != [] && Reads(g, v, path, bytes) && Clear(g, v, g.rootCluster, path, dirs, ex)
    requires KeptSince(g, v, dirs, ex, h, from)
    ensures AllRead(g, h, from, path, bytes)
  {
    hide Reads, CanRead, Keeps, Clear;
    forall k | from <= k < |h| ensures CanRead(g, h[k], path, bytes) {
      assert Keeps(g, v, h[k], dirs, ex);
      ReadsKept(g, v, h[k], path, bytes, dirs, ex);
    }
  }

  lemma KeepsShape(g: Geo, v: Vol, w: Vol, dirs: set<nat>, ex: set<(nat, Name)>)
    requires Keeps(g, v, w, dirs, ex)
    ensures Shape(g, w)
  {
  }

  /** A stretch that removes another name of the same directory leaves the file readable throughout. */
  lemma StretchReads(g: Geo, v: Vol, b: Book, h: seq<Vol>, v1: Vol, b1: Book, h1: seq<Vol>, path: seq<Name>,
                     x: nat, n: Name, bytes: seq<byte>)
    requires Inv(g, v, b) && path != [] && ParentOf(g, v, path) == Dir(x) && Leaf(path) != n && Reads(g, v, path, bytes)
    requires Removable(g, v, x, n) && Stretch(g, v, h, v1, b1, h1, Without(g, v, b, x, n), {(x, n)})
    ensures AllRead(g, h1, |h|, path, bytes) && Reads(g, v1, path, bytes)
  {
    hide Inv, Removable;
    ClearWithout(g, v, b, path, x, n);
    var dirs := Without(g, v, b, x, n);
    AllReadKept(g, v, path, bytes, dirs, {(x, n)}, h1, |h|);
    SameKeeps(g, v, v1, dirs, {(x, n)}, {(x, n)});
    ReadsKept(g, v, v1, path, bytes, dirs, {(x, n)});
  }

  /** Every file stays readable while only a missing name is being given a meaning. */
  lemma KeptReads(g: Geo, v: Vol, b: Book, v1: Vol, h: seq<Vol>, h1: seq<Vol>, path: seq<Name>, bytes: seq<byte>)
    requires Inv(g, v, b) && path != [] && Reads(g, v, path, bytes)
    requires Keeps(g, v, v1, b.dirs, {}) && KeptSince(g, v, b.dirs, {}, h1, |h|)
    ensures AllRead(g, h1, |h|, path, bytes) && Reads(g, v1, path, bytes)
  {
    hide Inv;
    InvRoot(g, v, b);
    ClearAny(g, v, b, g.rootCluster, path);
    AllReadKept(g, v, path, bytes, b.dirs, {}, h1, |h|);
    ReadsKept(g, v, v1, path, bytes, b.dirs, {});
  }

  /** The entry `n` of `x` is a file that holds `data`. */
  ghost predicate HoldsFile(g: Geo, v: Vol, x: nat, n: Name, data: seq<byte>) {
    && Shape(g, v) && Entry(g, v, x, n).Some?
    && var e := Entry(g, v, x, n).value;
    !e.IsDir() && e.size == |data| && FileBytes(g, v, e) == data
  }

  lemma HoldsReads(g: Geo, v: Vol, path: seq<Name>, x: nat, data: seq<byte>)
    requires path != [] && HoldsFile(g, v, x, Leaf(path), data) && ParentOf(g, v, path) == Dir(x)
    ensures Reads(g, v, path, data)
  {
    ParentSplit(g, v, path);
  }

  // ----- the phases -----

  /** While `path` is being replaced: the old file, or the new one under the temporary or the real name. */
  ghost predicate OneIsReadable(g: Geo, w: Vol, path: seq<Name>, was: seq<byte>, data: seq<byte>)
    requires path != []
  {
    CanRead(g, w, path, was) || CanRead(g, w, TempPath(path), data) || CanRead(g, w, path, data)
  }

  /** Whatever bytes `path` had at first, one of the two files can be read at every moment since. */
  ghost predicate Survives(g: Geo, v: Vol, path: seq<Name>, data: seq<byte>, h: seq<Vol>, from: nat)
    requires Shape(g, v) && path != []
  {
    forall was: seq<byte> :: Reads(g, v, path, was) ==>
      forall k :: from <= k < |h| ==> OneIsReadable(g, h[k], path, was, data)
  }

  ghost predicate StillReads(g: Geo, v: Vol, v': Vol, path: seq<Name>)
    requires Shape(g, v) && Shape(g, v')
  {
    forall was: seq<byte> :: Reads(g, v, path, was) ==> Reads(g, v', path, was)
  }

  /** After the stale temporary file was removed. */
  ghost predicate Cleaned(g: Geo, v: Vol, b: Book, h: seq<Vol>, v': Vol, b': Book, h': seq<Vol>,
                          path: seq<Name>, x: nat, data: seq<byte>)
  {
    && g.Ok() && Shape(g, v) && path != []
    && Stretch(g, v, h, v', b', h', b'.dirs, {(x, TempName())}) && b'.dirs <= b.dirs && x in b'.dirs
    && ParentOf(g, v', path) == Dir(x)
    && (Removable(g, v, x, TempName()) ==> Entry(g, v', x, TempName()).None?)
    && (!Removable(g, v, x, TempName()) || Entry(g, v, x, TempName()).None? ==> v' == v && b' == b)
    && OnlyEmptyGone(g, v, b, b'.dirs)
    && (Leaf(path) != TempName() ==> Survives(g, v, path, data, h', |h|) && StillReads(g, v, v', path))
  }

  lemma SurvivesReading(g: Geo, v: Vol, path: seq<Name>, data: seq<byte>, h: seq<Vol>, from: nat)
    requires Shape(g, v) && path != []
    requires forall was: seq<byte> :: Reads(g, v, path, was) ==> AllRead(g, h, from, path, was)
    ensures Survives(g, v, path, data, h, from)
  {
    hide Reads;
  }

  lemma AfterClean(g: Geo, v: Vol, b: Book, h: seq<Vol>, v': Vol, b': Book, h': seq<Vol>, path: seq<Name>, x: nat,
                   data: seq<byte>, st: Status)
    requires Inv(g, v, b) && path != [] && ParentOf(g, v, path) == Dir(x) && Shape(g, v')
    requires UnlinkSpec(g, v, b, v', b', TempPath(path), st) && UnlinkStep(g, v, b, h, v', b', h', TempPath(path))
    requires st != Ok ==> h' == h
    ensures Cleaned(g, v, b, h, v', b', h', path, x, data)
  {
    hide Inv, Removable, Stretch, UnlinkSpec, UnlinkStep, Reads, ParentOf;
    InvRoot(g, v, b);
    TempParent(g, v, path);
    TempParent(g, v', path);
    UnlinkGone(g, v, b, h, v', b', h', TempPath(path), x, st);
    if Leaf(path) != TempName() {
      forall was: seq<byte> | Reads(g, v, path, was)
        ensures AllRead(g, h', |h|, path, was) && Reads(g, v', path, was)
      {
        if Removable(g, v, x, TempName()) {
          StretchReads(g, v, b, h, v', b', h', path, x, TempName(), was);
        }
      }
      SurvivesReading(g, v, path, data, h', |h|);
    }
    if Removable(g, v, x, TempName()) {
      GoneByUnlink(g, v, b, h, v', b', h', x, TempName(), {(x, TempName())});
    }
  }

  /** A directory that goes with the entry that names it was empty. */
  lemma GoneByUnlink(g: Geo, v: Vol, b: Book, h: seq<Vol>, v': Vol, b': Book, h': seq<Vol>, x: nat, n: Name,
                     ex: set<(nat, Name)>)
    requires Shape(g, v) && Removable(g, v, x, n)
    requires Stretch(g, v, h, v', b', h', Without(g, v, b, x, n), ex)
    ensures OnlyEmptyGone(g, v, b, b'.dirs)
  {
    hide Inv, Same, KeptSince;
  }

  lemma SurvivesMore(g: Geo, v: Vol, path: seq<Name>, data: seq<byte>, h: seq<Vol>, h': seq<Vol>, from: nat)
    requires Shape(g, v) && path != [] && Survives(g, v, path, data, h, from) && h <= h' && from <= |h|
    requires forall was: seq<byte> :: Reads(g, v, path, was) ==>
      forall k :: |h| <= k < |h'| ==> OneIsReadable(g, h'[k], path, was, data)
    ensures Survives(g, v, path, data, h', from)
  {
    hide Reads, OneIsReadable;
    forall was: seq<byte>, k | Reads(g, v, path, was) && from <= k < |h'|
      ensures OneIsReadable(g, h'[k], path, was, data)
    {
      if k < |h| { assert h'[k] == h[k]; }
    }
  }

  /** After the new bytes were written to the temporary file. */
  ghost predicate Written(g: Geo, v: Vol, b: Book, h: seq<Vol>, v': Vol, b': Book, h': seq<Vol>,
                          path: seq<Name>, x: nat, data: seq<byte>)
  {
    && g.Ok() && Shape(g, v) && path != [] && InArea(v.area, DirSecs(g, v.fat, x))
    && Stretch(g, v, h, v', b', h', b'.dirs, {(x, TempName())}) && b'.dirs <= b.dirs && x in b'.dirs
    && ParentOf(g, v', path) == Dir(x) && HoldsFile(g, v', x, TempName(), data) && OnlyEmptyGone(g, v, b, b'.dirs)
    && (Leaf(path) != TempName() ==> Survives(g, v, path, data, h', |h|) && StillReads(g, v, v', path))
    && (Leaf(path) != TempName() && Entry(g, v, x, TempName()).None? ==>
          Fits(g, v, x, |data|) && (Removable(g, v, x, Leaf(path)) <==> Removable(g, v', x, Leaf(path))))
  }

  /** Every directory that is no longer there was empty. */
  ghost predicate OnlyEmptyGone(g: Geo, v: Vol, b: Book, dirs: set<nat>)
    requires Shape(g, v)
  {
    dirs <= b.dirs && forall d :: d in b.dirs && d !in dirs ==> EmptyDir(g, v, d)
  }

  /** What fat_write_atomic promises about the name of `path` in directory `x`. */
  ghost predicate Replaced(g: Geo, v: Vol, b: Book, h: seq<Vol>, v': Vol, b': Book, h': seq<Vol>,
                           path: seq<Name>, x: nat, data: seq<byte>, st: Status)
  {
    var temp := TempName();
    && g.Ok() && Shape(g, v) && path != [] && InArea(v.area, DirSecs(g, v.fat, x))
    && Stretch(g, v, h, v', b', h', b'.dirs, {(x, Leaf(path)), (x, temp)}) && b'.dirs <= b.dirs && x in b'.dirs
    && ParentOf(g, v', path) == Dir(x) && OnlyEmptyGone(g, v, b, b'.dirs)
    && (Leaf(path) != temp ==>
          && (st == Ok ==> HoldsFile(g, v', x, Leaf(path), data) && Entry(g, v', x, temp).None?)
          && (st != Ok ==> Same(g, v, v', b'.dirs, {(x, temp)}))
          && (Entry(g, v, x, temp).None? ==> (st == Ok <==> Fits(g, v, x, |data|) && Removable(g, v, x, Leaf(path))))
          && Survives(g, v, path, data, h', |h|))
    && (Leaf(path) == temp ==> st != Ok && (Removable(g, v, x, temp) ==> Entry(g, v', x, temp).None?))
  }

  /** An entry of a kept directory can be removed on both volumes or on neither. */
  lemma RemovableSame(g: Geo, v: Vol, b: Book, v': Vol, x: nat, n: Name, t: Name)
    requires Inv(g, v, b) && x in b.dirs && n != t && Same(g, v, v', b.dirs, {(x, t)})
    ensures Removable(g, v, x, n) <==> Removable(g, v', x, n)
  {
    var k := EntryFacts(g, v, b, x, n);
    if Entry(g, v, x, n).Some? && Entry(g, v, x, n).value.IsDir() {
      var d := Entry(g, v, x, n).value.head;
      hide Inv;
      if d == x {
        assert Entry(g, v, d, n).Some? && Entry(g, v', d, n).Some?;
      } else {
        assert forall m: Name :: Entry(g, v', d, m) == Entry(g, v, d, m);
      }
    }
  }

  lemma CreateStretch(g: Geo, v: Vol, b: Book, h: seq<Vol>, v': Vol, b': Book, h': seq<Vol>,
                      path: seq<Name>, x: nat, data: seq<byte>, st: Status)
    requires Inv(g, v, b) && path != [] && ParentOf(g, v, path) == Dir(x) && Shape(g, v')
    requires CreateSpec(g, v, b, v', b', path, data, st) && SoundStep(g, v, b, h, v', b', h', {})
    ensures InArea(v.area, DirSecs(g, v.fat, x)) && x in b.dirs && b'.dirs == b.dirs
    ensures Entry(g, v, x, Leaf(path)).Some? ==> st == Exists && v' == v
    ensures Entry(g, v, x, Leaf(path)).None? ==> (st == Ok <==> Fits(g, v, x, |data|))
    ensures st == Ok ==> HoldsFile(g, v', x, Leaf(path), data)
    ensures st != Ok ==> Same(g, v, v', b.dirs, {})
    ensures Stretch(g, v, h, v', b', h', b.dirs, if st == Ok then {(x, Leaf(path))} else {})
    ensures Keeps(g, v, v', b.dirs, {})
  {
    hide Inv, Fits;
    PathFacts(g, v, b, path);
    SameSelf(g, v, b);
    DirSecsInArea(g, v, x);
    if st == Ok {
      KeptWeaken(g, v, b.dirs, b.dirs, {}, {(x, Leaf(path))}, h', |h|);
      SameKeeps(g, v, v', b.dirs, {(x, Leaf(path))}, {});
    } else {
      SameKeeps(g, v, v', b.dirs, {}, {});
    }
  }

  lemma CreateSurvives(g: Geo, v: Vol, v1: Vol, b1: Book, h1: seq<Vol>, v2: Vol, h2: seq<Vol>,
                       path: seq<Name>, data: seq<byte>, from: nat)
    requires Shape(g, v) && path != [] && Inv(g, v1, b1) && from <= |h1| && h1 <= h2
    requires Survives(g, v, path, data, h1, from) && StillReads(g, v, v1, path)
    requires Keeps(g, v1, v2, b1.dirs, {}) && KeptSince(g, v1, b1.dirs, {}, h2, |h1|)
    ensures Survives(g, v, path, data, h2, from) && StillReads(g, v, v2, path)
  {
    hide Inv, Reads, Keeps, KeptSince;
    KeepsShape(g, v1, v2, b1.dirs, {});
    forall was: seq<byte> | Reads(g, v, path, was)
      ensures Reads(g, v2, path, was) && AllRead(g, h2, |h1|, path, was)
    {
      KeptReads(g, v1, b1, v2, h1, h2, path, was);
    }
    SurvivesMore(g, v, path, data, h1, h2, from);
  }

  /** The creation of the temporary file succeeded. */
  lemma AfterCreate(g: Geo, v: Vol, b: Book, h: seq<Vol>, v1: Vol, b1: Book, h1: seq<Vol>, v2: Vol, b2: Book,
                    h2: seq<Vol>, path: seq<Name>, x: nat, data: seq<byte>)
    requires Inv(g, v, b) && Cleaned(g, v, b, h, v1, b1, h1, path, x, data) && Shape(g, v2) && Shape(g, v1)
    requires CreateSpec(g, v1, b1, v2, b2, TempPath(path), data, Ok) && SoundStep(g, v1, b1, h1, v2, b2, h2, {})
    ensures Written(g, v, b, h, v2, b2, h2, path, x, data)
  {
    hide Inv, CreateSpec, Removable, Survives, StillReads, Fits;
    TempParent(g, v1, path);
    DirSecsInArea(g, v, x);
    assert KeptSince(g, v1, b1.dirs, {}, h2, |h1|);
    CreateStretch(g, v1, b1, h1, v2, b2, h2, TempPath(path), x, data, Ok);
    ParentOnKeeps(g, v1, b1, v2, path, x);
    StretchTrans(g, v, h, v1, b1, h1, v2, b2, h2, b1.dirs, b1.dirs, {(x, TempName())}, {(x, TempName())},
      {(x, TempName())});
    if Leaf(path) != TempName() {
      CreateSurvives(g, v, v1, b1, h1, v2, h2, path, data, |h|);
      if Entry(g, v, x, TempName()).None? {
        RemovableSame(g, v, b, v2, x, Leaf(path), TempName());
      }
    }
  }

  /** It failed: whatever the path denoted, it still does. */
  lemma CreateRefused(g: Geo, v: Vol, b: Book, h: seq<Vol>, v1: Vol, b1: Book, h1: seq<Vol>, v2: Vol, b2: Book,
                      h2: seq<Vol>, path: seq<Name>, x: nat, data: seq<byte>, st: Status)
    requires Inv(g, v, b) && Cleaned(g, v, b, h, v1, b1, h1, path, x, data) && Shape(g, v2) && Shape(g, v1) && st != Ok
    requires CreateSpec(g, v1, b1, v2, b2, TempPath(path), data, st) && SoundStep(g, v1, b1, h1, v2, b2, h2, {})
    ensures Replaced(g, v, b, h, v2, b2, h2, path, x, data, st)
  {
    hide Inv, CreateSpec, Removable, Survives, StillReads, Fits;
    TempParent(g, v1, path);
    DirSecsInArea(g, v, x);
    assert KeptSince(g, v1, b1.dirs, {}, h2, |h1|);
    CreateStretch(g, v1, b1, h1, v2, b2, h2, TempPath(path), x, data, st);
    ParentOnKeeps(g, v1, b1, v2, path, x);
    var ex := {(x, TempName())};
    StretchTrans(g, v, h, v1, b1, h1, v2, b2, h2, b1.dirs, b1.dirs, ex, {}, ex);
    StretchWeaken(g, v, h, v2, b2, h2, b2.dirs, ex, {(x, Leaf(path)), (x, TempName())});
    if Leaf(path) != TempName() {
      CreateSurvives(g, v, v1, b1, h1, v2, h2, path, data, |h|);
    }
  }

  /** After the old file was removed: the new bytes are whole, under the temporary name. */
  ghost predicate Removed(g: Geo, v: Vol, b: Book, h: seq<Vol>, v': Vol, b': Book, h': seq<Vol>,
                          path: seq<Name>, x: nat, data: seq<byte>)
  {
    var temp := TempName();
    && g.Ok() && Shape(g, v) && path != [] && InArea(v.area, DirSecs(g, v.fat, x))
    && Stretch(g, v, h, v', b', h', b'.dirs, {(x, Leaf(path)), (x, temp)}) && b'.dirs <= b.dirs && x in b'.dirs
    && ParentOf(g, v', path) == Dir(x) && Entry(g, v', x, Leaf(path)).None? && OnlyEmptyGone(g, v, b, b'.dirs)
    && (Leaf(path) != temp ==>
          && HoldsFile(g, v', x, temp, data) && Survives(g, v, path, data, h', |h|)
          && (Entry(g, v, x, temp).None? ==> Fits(g, v, x, |data|) && Removable(g, v, x, Leaf(path))))
  }

  lemma TempSurvives(g: Geo, v: Vol, v2: Vol, b2: Book, h2: seq<Vol>, v3: Vol, b3: Book, h3: seq<Vol>,
                     path: seq<Name>, x: nat, data: seq<byte>, from: nat)
    requires Shape(g, v) && path != [] && Inv(g, v2, b2) && from <= |h2| && h2 <= h3 && Leaf(path) != TempName()
    requires Survives(g, v, path, data, h2, from) && ParentOf(g, v2, path) == Dir(x)
    requires HoldsFile(g, v2, x, TempName(), data) && Removable(g, v2, x, Leaf(path))
    requires Stretch(g, v2, h2, v3, b3, h3, Without(g, v2, b2, x, Leaf(path)), {(x, Leaf(path))})
    ensures Survives(g, v, path, data, h3, from)
  {
    hide Inv, Removable, Stretch, Reads, Without;
    TempParent(g, v2, path);
    HoldsReads(g, v2, TempPath(path), x, data);
    StretchReads(g, v2, b2, h2, v3, b3, h3, TempPath(path), x, Leaf(path), data);
    SurvivesMore(g, v, path, data, h2, h3, from);
  }

  lemma HoldsStill(g: Geo, v: Vol, v': Vol, x: nat, n: Name, data: seq<byte>, dirs: set<nat>, ex: set<(nat, Name)>)
    requires HoldsFile(g, v, x, n, data) && Same(g, v, v', dirs, ex) && x in dirs && (x, n) !in ex
    ensures HoldsFile(g, v', x, n, data)
  {
  }

  lemma GoneWasEmpty(g: Geo, v: Vol, b: Book, v2: Vol, b2: Book, x: nat, n: Name, t: Name)
    requires Shape(g, v) && Inv(g, v2, b2) && Same(g, v, v2, b2.dirs, {(x, t)}) && OnlyEmptyGone(g, v, b, b2.dirs)
    requires x in b2.dirs && Removable(g, v2, x, n)
    ensures OnlyEmptyGone(g, v, b, Without(g, v2, b2, x, n))
  {
    hide Inv, FoundAt, EntOk;
    var k := EntryFacts(g, v2, b2, x, n);
    if Entry(g, v2, x, n).Some? && Entry(g, v2, x, n).value.IsDir() {
      var d := Entry(g, v2, x, n).value.head;
      assert d != x;
      forall m: Name ensures Entry(g, v, d, m).None? {
        assert Entry(g, v2, d, m) == Entry(g, v, d, m);
      }
    }
  }

  lemma AfterRemove(g: Geo, v: Vol, b: Book, h: seq<Vol>, v2: Vol, b2: Book, h2: seq<Vol>, v3: Vol, b3: Book,
                    h3: seq<Vol>, path: seq<Name>, x: nat, data: seq<byte>, st: Status)
    requires Written(g, v, b, h, v2, b2, h2, path, x, data) && Shape(g, v3) && Shape(g, v2)
    requires UnlinkSpec(g, v2, b2, v3, b3, path, st) && UnlinkStep(g, v2, b2, h2, v3, b3, h3, path)
    requires st == Ok || st == NotFound
    ensures Removed(g, v, b, h, v3, b3, h3, path, x, data)
  {
    hide Inv, UnlinkSpec, UnlinkStep, Survives, StillReads, Fits, Same, KeptSince, HoldsFile, Removable, OnlyEmptyGone;
    assert Inv(g, v2, b2);
    UnlinkGone(g, v2, b2, h2, v3, b3, h3, path, x, st);
    var n, t := Leaf(path), TempName();
    GoneWasEmpty(g, v, b, v2, b2, x, n, t);
    StretchTrans(g, v, h, v2, b2, h2, v3, b3, h3, b2.dirs, b3.dirs, {(x, t)}, {(x, n)}, {(x, n), (x, t)});
    if n != t {
      TempSurvives(g, v, v2, b2, h2, v3, b3, h3, path, x, data, |h|);
      HoldsStill(g, v2, v3, x, t, data, b3.dirs, {(x, n)});
    }
  }

  /** The old entry could not be removed, and the temporary file was: nothing but that name was touched. */
  lemma AfterGivingUp(g: Geo, v: Vol, b: Book, h: seq<Vol>, v2: Vol, b2: Book, h2: seq<Vol>, v3: Vol, b3: Book,
                      h3: seq<Vol>, path: seq<Name>, x: nat, data: seq<byte>, ur: Status, st: Status)
    requires Written(g, v, b, h, v2, b2, h2, path, x, data) && Shape(g, v3) && Shape(g, v2)
    requires !Removable(g, v2, x, Leaf(path)) && ur != Ok
    requires UnlinkSpec(g, v2, b2, v3, b3, TempPath(path), st) && UnlinkStep(g, v2, b2, h2, v3, b3, h3, TempPath(path))
    ensures Replaced(g, v, b, h, v3, b3, h3, path, x, data, ur)
  {
    hide Inv, UnlinkSpec, UnlinkStep, Survives, StillReads, Fits, KeptSince;
    assert Inv(g, v2, b2);
    TempParent(g, v2, path);
    TempParent(g, v3, path);
    UnlinkGone(g, v2, b2, h2, v3, b3, h3, TempPath(path), x, st);
    var n, t := Leaf(path), TempName();
    assert n != t && Removable(g, v2, x, t);
    hide Removable, Same;
    StretchTrans(g, v, h, v2, b2, h2, v3, b3, h3, b2.dirs, b3.dirs, {(x, t)}, {(x, t)}, {(x, t)});
    StretchWeaken(g, v, h, v3, b3, h3, b3.dirs, {(x, t)}, {(x, n), (x, t)});
    GivenUpSurvives(g, v, v2, b2, h2, v3, b3, h3, path, x, data, |h|);
  }

  lemma GivenUpSurvives(g: Geo, v: Vol, v2: Vol, b2: Book, h2: seq<Vol>, v3: Vol, b3: Book, h3: seq<Vol>,
                        path: seq<Name>, x: nat, data: seq<byte>, from: nat)
    requires Shape(g, v) && path != [] && Inv(g, v2, b2) && from <= |h2| && h2 <= h3 && Leaf(path) != TempName()
    requires Survives(g, v, path, data, h2, from) && StillReads(g, v, v2, path) && ParentOf(g, v2, path) == Dir(x)
    requires Removable(g, v2, x, TempName())
    requires Stretch(g, v2, h2, v3, b3, h3, Without(g, v2, b2, x, TempName()), {(x, TempName())})
    ensures Survives(g, v, path, data, h3, from)
  {
    hide Inv, Removable, Stretch, Reads, Without;
    forall was: seq<byte> | Reads(g, v, path, was) ensures AllRead(g, h3, |h2|, path, was) {
      StretchReads(g, v2, b2, h2, v3, b3, h3, path, x, TempName(), was);
    }
    SurvivesMore(g, v, path, data, h2, h3, from);
  }

  /** The rename that finishes the replacement. */
  lemma AfterRename(g: Geo, v: Vol, b: Book, h: seq<Vol>, v3: Vol, b3: Book, h3: seq<Vol>, v4: Vol,
                    path: seq<Name>, x: nat, data: seq<byte>, st: Status)
    requires Removed(g, v, b, h, v3, b3, h3, path, x, data) && Shape(g, v4) && Shape(g, v3) && Inv(g, v4, b3)
    requires RenameSpec(g, v3, b3, v4, TempPath(path), path, st) && Leaf(path) != TempName()
    ensures st == Ok && Replaced(g, v, b, h, v4, b3, h3 + [v4], path, x, data, Ok)
  {
    hide Inv, Survives, Fits, Removable, Resolve, ParentOf, KeptSince;
    var n, t := Leaf(path), TempName();
    var e := Entry(g, v3, x, t).value;
    RenameGoes(g, v3, path, x, data);
    TempParent(g, v3, path);
    assert Inv(g, v3, b3) && Moved(g, v3, b3, v4, x, t, n, e);
    RenameStretch(g, v3, b3, h3, v4, x, t, n, e);
    StretchTrans(g, v, h, v3, b3, h3, v4, b3, h3 + [v4], b3.dirs, b3.dirs, {(x, n), (x, t)}, {(x, t), (x, n)},
      {(x, n), (x, t)});
    RenamedSurvives(g, v, v3, b3, h3, v4, path, x, data, |h|);
  }

  /** The temporary name is there, and the real one is free. */
  lemma RenameGoes(g: Geo, v: Vol, path: seq<Name>, x: nat, data: seq<byte>)
    requires path != [] && HoldsFile(g, v, x, TempName(), data) && ParentOf(g, v, path) == Dir(x)
    requires Entry(g, v, x, Leaf(path)).None?
    ensures RenamePlan(g, v, TempPath(path), path) == Go(x, Entry(g, v, x, TempName()).value)
  {
    TempParent(g, v, path);
    ParentSplit(g, v, path);
    ParentSplit(g, v, TempPath(path));
  }

  lemma RenameStretch(g: Geo, v: Vol, b: Book, h: seq<Vol>, v': Vol, x: nat, n: Name, n2: Name, e: Ent)
    requires Inv(g, v', b) && Shape(g, v) && Moved(g, v, b, v', x, n, n2, e)
    ensures Stretch(g, v, h, v', b, h + [v'], b.dirs, {(x, n), (x, n2)})
  {
    hide Inv;
    SameKeeps(g, v, v', b.dirs, {(x, n), (x, n2)}, {(x, n), (x, n2)});
  }

  lemma RenamedSurvives(g: Geo, v: Vol, v3: Vol, b3: Book, h3: seq<Vol>, v4: Vol, path: seq<Name>, x: nat,
                        data: seq<byte>, from: nat)
    requires Inv(g, v4, b3)
    requires Shape(g, v) && path != [] && Inv(g, v3, b3) && Shape(g, v4) && from <= |h3| && Leaf(path) != TempName()
    requires HoldsFile(g, v3, x, TempName(), data) && ParentOf(g, v3, path) == Dir(x) && x in b3.dirs
    requires Entry(g, v3, x, Leaf(path)).None? && Survives(g, v, path, data, h3, from)
    requires Moved(g, v3, b3, v4, x, TempName(), Leaf(path), Entry(g, v3, x, TempName()).value)
    ensures HoldsFile(g, v4, x, Leaf(path), data) && Survives(g, v, path, data, h3 + [v4], from)
    ensures ParentOf(g, v4, path) == Dir(x)
  {
    hide Inv, Resolve, ParentOf, Same, Keeps;
    hide Reads, CanRead;
    var n, t := Leaf(path), TempName();
    TempParent(g, v3, path);
    TempParent(g, v4, path);
    ParentSplit(g, v3, TempPath(path));
    SameKeeps(g, v3, v4, b3.dirs, {(x, t), (x, n)}, {(x, t)});
    ParentWithout(g, v3, b3, v4, TempPath(path), x);
    HoldsReads(g, v4, path, x, data);
    SoundCanRead(g, v4, b3, path, data);
    SurvivesMore(g, v, path, data, h3, h3 + [v4], from);
  }

  /** When the target is the temporary file itself, there is nothing left to rename. */
  lemma NothingToRename(g: Geo, v: Vol, b: Book, h: seq<Vol>, v3: Vol, b3: Book, h3: seq<Vol>, v4: Vol,
                        path: seq<Name>, x: nat, data: seq<byte>, st: Status)
    requires Removed(g, v, b, h, v3, b3, h3, path, x, data) && Shape(g, v4) && Shape(g, v3)
    requires RenameSpec(g, v3, b3, v4, TempPath(path), path, st) && Leaf(path) == TempName()
    ensures st == NotFound && v4 == v3 && Replaced(g, v, b, h, v3, b3, h3, path, x, data, NotFound)
    ensures Resolve(g, v3, path) == Miss(NotFound)
  {
    hide Inv, Survives, Fits, Removable, Stretch, Same;
    TempParent(g, v3, path);
    ParentSplit(g, v3, path);
  }

  ghost predicate AtomicSpec(g: Geo, v: Vol, b: Book, h: seq<Vol>, v': Vol, b': Book, h': seq<Vol>,
                             path: seq<Name>, data: seq<byte>, st: Status)
  {
    && g.Ok() && Shape(g, v) && path != []
    && match ParentOf(g, v, path)
       case NoDir(err) =>
         st == err && st != Ok && v' == v && b' == b && Stretch(g, v, h, v', b', h', b.dirs, {})
       case Dir(x) => Replaced(g, v, b, h, v', b', h', path, x, data, st)
  }

  // ----- fat_write_atomic -----

  /** A path into no directory: none of the calls does anything. */
  lemma NoDirectory(g: Geo, v: Vol, b: Book, path: seq<Name>)
    requires Inv(g, v, b) && path != [] && ParentOf(g, v, path).NoDir?
    ensures ParentOf(g, v, path).err != Ok
    ensures Resolve(g, v, TempPath(path)) == Miss(ParentOf(g, v, path).err)
    ensures ParentOf(g, v, TempPath(path)) == ParentOf(g, v, path)
  {
    TempParent(g, v, path);
    ParentSplit(g, v, TempPath(path));
    MissIsError(g, v, g.rootCluster, path[..|path| - 1]);
  }

  lemma NothingDone(g: Geo, v: Vol, b: Book, h: seq<Vol>, v1: Vol, b1: Book, h1: seq<Vol>, v2: Vol, b2: Book,
                    h2: seq<Vol>, path: seq<Name>, data: seq<byte>, ur: Status, st: Status)
    requires Inv(g, v, b) && path != [] && ParentOf(g, v, path).NoDir? && Shape(g, v1) && Shape(g, v2)
    requires UnlinkSpec(g, v, b, v1, b1, TempPath(path), ur) && UnlinkStep(g, v, b, h, v1, b1, h1, TempPath(path))
    requires CreateSpec(g, v1, b1, v2, b2, TempPath(path), data, st) && SoundStep(g, v1, b1, h1, v2, b2, h2, {})
    ensures st != Ok && AtomicSpec(g, v, b, h, v2, b2, h2, path, data, st)
  {
    hide Inv;
    NoDirectory(g, v, b, path);
    SameSelf(g, v, b);
    assert Stretch(g, v, h, v1, b1, h1, b.dirs, {}) && Stretch(g, v1, h1, v2, b2, h2, b.dirs, {});
    StretchTrans(g, v, h, v1, b1, h1, v2, b2, h2, b.dirs, b.dirs, {}, {}, {});
  }

  lemma RefusedIsSpec(g: Geo, v: Vol, b: Book, h: seq<Vol>, v': Vol, b': Book, h': seq<Vol>,
                      path: seq<Name>, x: nat, data: seq<byte>, st: Status)
    requires Replaced(g, v, b, h, v', b', h', path, x, data, st) && ParentOf(g, v, path) == Dir(x)
    ensures AtomicSpec(g, v, b, h, v', b', h', path, data, st)
  {
  }

  /** Removes a stale temporary file and writes the new one. */
  method WriteTemp(fs: Volume, path: seq<Name>, data: seq<byte>) returns (st: Status, ghost x: nat)
    requires Sound(fs) && path != [] && |data| < 0x1_0000_0000
    modifies fs.Arrays(), fs`vol, fs`hist, fs`cacheNext, fs`book
    ensures Sound(fs)
    ensures st == Ok ==> ParentOf(fs.g, old(fs.vol), path) == Dir(x)
    ensures st == Ok ==> Written(fs.g, old(fs.vol), old(fs.book), old(fs.hist), fs.vol, fs.book, fs.hist, path, x, data)
    ensures st != Ok ==>
      AtomicSpec(fs.g, old(fs.vol), old(fs.book), old(fs.hist), fs.vol, fs.book, fs.hist, path, data, st)
  {
    hide Volume.Valid, Inv, UnlinkSpec, UnlinkStep, CreateSpec, SoundStep, Cleaned, Written, Replaced, AtomicSpec;
    ghost var v, b, h := fs.vol, fs.book, fs.hist;
    x := if ParentOf(fs.g, v, path).Dir? then ParentOf(fs.g, v, path).id else 0;
    var ur := FatUnlink.FatUnlink(fs, TempPath(path));
    ghost var v1, b1, h1 := fs.vol, fs.book, fs.hist;
    st := FatCreate.FatCreate(fs, TempPath(path), data);
    if ParentOf(fs.g, v, path).Dir? {
      AfterClean(fs.g, v, b, h, v1, b1, h1, path, x, data, ur);
      if st == Ok {
        AfterCreate(fs.g, v, b, h, v1, b1, h1, fs.vol, fs.book, fs.hist, path, x, data);
      } else {
        CreateRefused(fs.g, v, b, h, v1, b1, h1, fs.vol, fs.book, fs.hist, path, x, data, st);
        RefusedIsSpec(fs.g, v, b, h, fs.vol, fs.book, fs.hist, path, x, data, st);
      }
    } else {
      NothingDone(fs.g, v, b, h, v1, b1, h1, fs.vol, fs.book, fs.hist, path, data, ur, st);
    }
  }

  lemma WrittenFacts(g: Geo, v: Vol, b: Book, h: seq<Vol>, v2: Vol, b2: Book, h2: seq<Vol>, path: seq<Name>, x: nat,
                     data: seq<byte>)
    requires Written(g, v, b, h, v2, b2, h2, path, x, data)
    ensures path != [] && ParentOf(g, v2, path) == Dir(x) && Inv(g, v2, b2)
  {
  }

  lemma RemoveOutcome(g: Geo, v: Vol, b: Book, h: seq<Vol>, v': Vol, b': Book, h': seq<Vol>, path: seq<Name>, x: nat,
                      st: Status)
    requires Inv(g, v, b) && path != [] && ParentOf(g, v, path) == Dir(x) && Shape(g, v')
    requires UnlinkSpec(g, v, b, v', b', path, st) && UnlinkStep(g, v, b, h, v', b', h', path)
    ensures Removable(g, v, x, Leaf(path)) <==> st == Ok || st == NotFound
    ensures !Removable(g, v, x, Leaf(path)) ==> v' == v && b' == b
  {
    UnlinkGone(g, v, b, h, v', b', h', path, x, st);
  }

  /** Removes the old file, or the temporary one when that cannot be done. */
  method RemoveOld(fs: Volume, path: seq<Name>, data: seq<byte>, ghost v: Vol, ghost b: Book, ghost h: seq<Vol>,
                   ghost x: nat)
    returns (st: Status)
    requires fs.Valid() && Written(fs.g, v, b, h, fs.vol, fs.book, fs.hist, path, x, data)
    modifies fs.Arrays(), fs`vol, fs`hist, fs`cacheNext, fs`book
    ensures Sound(fs)
    ensures st == Ok ==> Removed(fs.g, v, b, h, fs.vol, fs.book, fs.hist, path, x, data)
    ensures st != Ok ==> Replaced(fs.g, v, b, h, fs.vol, fs.book, fs.hist, path, x, data, st)
  {
    hide Volume.Valid, Inv, UnlinkSpec, UnlinkStep, Written, Removed, Replaced, Removable;
    ghost var v2, b2, h2 := fs.vol, fs.book, fs.hist;
    WrittenFacts(fs.g, v, b, h, v2, b2, h2, path, x, data);
    st := FatUnlink.FatUnlink(fs, path);
    RemoveOutcome(fs.g, v2, b2, h2, fs.vol, fs.book, fs.hist, path, x, st);
    if st != Ok && st != NotFound {
      var ur := FatUnlink.FatUnlink(fs, TempPath(path));
      AfterGivingUp(fs.g, v, b, h, v2, b2, h2, fs.vol, fs.book, fs.hist, path, x, data, st, ur);
    } else {
      AfterRemove(fs.g, v, b, h, v2, b2, h2, fs.vol, fs.book, fs.hist, path, x, data, st);
      st := Ok;
    }
  }

  /** Gives the new file its name; cleans up when there is nothing to rename. */
  method RenameTemp(fs: Volume, path: seq<Name>, data: seq<byte>, ghost v: Vol, ghost b: Book, ghost h: seq<Vol>,
                    ghost x: nat)
    returns (st: Status)
    requires Sound(fs) && path != [] && Removed(fs.g, v, b, h, fs.vol, fs.book, fs.hist, path, x, data)
    modifies fs.Arrays(), fs`vol, fs`hist, fs`cacheNext, fs`book
    ensures Sound(fs)
    ensures Replaced(fs.g, v, b, h, fs.vol, fs.book, fs.hist, path, x, data, st)
  {
    hide Volume.Valid, Inv, RenameSpec, UnlinkStep, Removed, Replaced;
    ghost var v3, b3, h3 := fs.vol, fs.book, fs.hist;
    st := FatRename.FatRename(fs, TempPath(path), path);
    if Leaf(path) == TempName() {
      NothingToRename(fs.g, v, b, h, v3, b3, h3, fs.vol, path, x, data, st);
      TempParent(fs.g, v3, path);
    } else {
      AfterRename(fs.g, v, b, h, v3, b3, h3, fs.vol, path, x, data, st);
    }
    if st != Ok {
      var ur := FatUnlink.FatUnlink(fs, TempPath(path));
    }
  }

  /**
   Replaces the contents of `path`. From a sound volume, power loss after any block write of the call
   leaves the old bytes readable, or the new ones, whole, under the temporary or the real name; unless
   the target is called like the temporary file itself, which destroys it.
   */
  method FatWriteAtomic(fs: Volume, path: seq<Name>, data: seq<byte>) returns (st: Status)
    requires Sound(fs) && path != [] && |data| < 0x1_0000_0000
    modifies fs.Arrays(), fs`vol, fs`hist, fs`cacheNext, fs`book
    ensures Sound(fs)
    ensures AtomicSpec(fs.g, old(fs.vol), old(fs.book), old(fs.hist), fs.vol, fs.book, fs.hist, path, data, st)
  {
    hide Volume.Valid, Inv, Written, Removed, Replaced, AtomicSpec;
    ghost var v, b, h := fs.vol, fs.book, fs.hist;
    ghost var x;
    st, x := WriteTemp(fs, path, data);
    if st == Ok {
      st := RemoveOld(fs, path, data, v, b, h, x);
      if st == Ok {
        st := RenameTemp(fs, path, data, v, b, h, x);
      }
      RefusedIsSpec(fs.g, v, b, h, fs.vol, fs.book, fs.hist, path, x, data, st);
    }
  }

  /** What the target denotes when the call is over. */
  lemma AtomicEnd(g: Geo, v: Vol, b: Book, h: seq<Vol>, v': Vol, b': Book, h': seq<Vol>,
                  path: seq<Name>, x: nat, data: seq<byte>, st: Status, was: seq<byte>)
    requires Replaced(g, v, b, h, v', b', h', path, x, data, st) && ParentOf(g, v, path) == Dir(x)
      && Reads(g, v, path, was)
    ensures Shape(g, v')
    ensures Leaf(path) != TempName() ==> Reads(g, v', path, if st == Ok then data else was)
    ensures Leaf(path) == TempName() ==> Resolve(g, v', path) == Miss(NotFound)
  {
    hide Inv, Survives, Fits, Resolve, ParentOf, KeptSince;
    ParentSplit(g, v, path);
    ParentSplit(g, v', path);
  }

  /**
   The whole call is crash safe for an existing file exactly when that file is not called like the
   temporary one: at every moment, and at its end, the old bytes or the new ones can be read.
   */
  lemma CrashSafeExactlyWhen(g: Geo, v: Vol, b: Book, h: seq<Vol>, v': Vol, b': Book, h': seq<Vol>,
                             path: seq<Name>, data: seq<byte>, st: Status, was: seq<byte>)
    requires AtomicSpec(g, v, b, h, v', b', h', path, data, st) && Reads(g, v, path, was)
    ensures Shape(g, v')
    ensures (forall k :: |h| <= k < |h'| ==> OneIsReadable(g, h'[k], path, was, data))
            && OneIsReadable(g, v', path, was, data)
            <==> Leaf(path) != TempName()
  {
    ParentSplit(g, v, path);
    var x := ParentOf(g, v, path).id;
    AtomicEnd(g, v, b, h, v', b', h', path, x, data, st, was);
    TempParent(g, v', path);
    if Leaf(path) != TempName() {
      SoundCanRead(g, v', b', path, if st == Ok then data else was);
    }
    hide Stretch, Fits, Removable, Resolve, ParentOf;
  }

  // ----- after power loss -----

  lemma CanReadFacts(g: Geo, v: Vol, path: seq<Name>, bytes: seq<byte>)
    requires CanRead(g, v, path, bytes)
    ensures Resolve(g, v, path).Found? && !Resolve(g, v, path).ent.IsDir()
    ensures FileBytes(g, v, Resolve(g, v, path).ent) == bytes && |bytes| == Resolve(g, v, path).ent.size
  {
  }

  /** Mounts the card as power loss left it, opens the file and reads it to its end. */
  method ReadAfterMount(g: Geo, card: array<Sector>, path: seq<Name>, ghost bytes: seq<byte>) returns (data: seq<byte>)
    requires g.Ok() && g.AreaLba() + g.AreaSize() <= card.Length
    requires CanRead(g, View(g, card[..]), path, bytes)
    ensures data == bytes
  {
    hide Walkable, View, Reads, FatOk, FatsAgree, FatOnCard.OnCard, Resolve;
    var fs := new Volume(g, card, Book({}, map[], map[]));
    hide Volume.Valid;
    var f := new OpenFile();
    CanReadFacts(g, fs.vol, path, bytes);
    var st := FatOpen(fs, path, f);
    data := ReadInPieces(fs, f, [f.size]);
  }
}
