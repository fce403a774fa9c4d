/** The directories of a sound volume form a tree, so what a call touches can be told by paths. */
module FatTree {
  import opened Basics
  import opened FatLayout
  import opened FatView
  import opened FatInv
  import opened FatDir
  import opened FatCreate
  import opened FatUnlink
  import opened FatAtomic

  /** The directory that a path denotes; the root for the empty one. */
  function DirAt(g: Geo, v: Vol, path: seq<Name>): DirLookup
    requires Shape(g, v)
  {
    if path == [] then Dir(g.rootCluster) else AsDir(Resolve(g, v, path))
  }

  lemma ParentIsDirAt(g: Geo, v: Vol, path: seq<Name>)
    requires Shape(g, v) && path != []
    ensures ParentOf(g, v, path) == DirAt(g, v, path[..|path| - 1])
  {
    hide ResolveFrom;
  }

  /** A directory other than the root is an entry of the directory that its path's beginning denotes. */
  lemma DirAtEntry(g: Geo, v: Vol, b: Book, path: seq<Name>) returns (y: nat, k: nat)
    requires Inv(g, v, b) && path != [] && DirAt(g, v, path).Dir?
    ensures DirAt(g, v, path[..|path| - 1]) == Dir(y) && y in b.dirs && Entry(g, v, y, Leaf(path)).Some?
    ensures var x := DirAt(g, v, path).id;
      && Entry(g, v, y, Leaf(path)).value.head == x && x != g.rootCluster && x in b.owner && b.owner[x] == (y, k)
      && (IsRoot16(g, y) || y in b.chains) && InArea(v.area, Secs(g, b, y))
      && FoundAt(v.area, Secs(g, b, y), Leaf(path), k)
  {
    InvRoot(g, v, b);
    PathFacts(g, v, b, path);
    ParentIsDirAt(g, v, path);
    y := ParentOf(g, v, path).id;
    k := EntryFacts(g, v, b, y, Leaf(path));
    RootUnowned(g, v, b);
    hide Inv, Entry, ResolveFrom, FoundAt, InArea;
  }

  lemma RootUnowned(g: Geo, v: Vol, b: Book)
    requires Inv(g, v, b)
    ensures g.rootCluster !in b.owner
  {
    hide DirOk, ChainsOk, FatOk;
  }

  lemma SameSlotName(area: seq<Sector>, secs: seq<nat>, m: Name, n: Name, k: nat)
    requires InArea(area, secs) && FoundAt(area, secs, m, k) && FoundAt(area, secs, n, k)
    ensures m == n
  {
  }

  /** No two paths lead to the same directory. */
  lemma {:induction false} PathIsUnique(g: Geo, v: Vol, b: Book, p: seq<Name>, q: seq<Name>)
    requires Inv(g, v, b) && DirAt(g, v, p).Dir? && DirAt(g, v, p) == DirAt(g, v, q)
    ensures p == q
    decreases |p|
  {
    hide Inv, Entry, FoundAt, InArea, ResolveFrom, Resolve;
    if p == [] {
      if q != [] {
        var y, k := DirAtEntry(g, v, b, q);
      }
    } else {
      var y, k := DirAtEntry(g, v, b, p);
      if q != [] {
        var y', k' := DirAtEntry(g, v, b, q);
        SameSlotName(v.area, Secs(g, b, y), Leaf(p), Leaf(q), k);
        PathIsUnique(g, v, b, p[..|p| - 1], q[..|q| - 1]);
        assert p == p[..|p| - 1] + [Leaf(p)] && q == q[..|q| - 1] + [Leaf(q)];
      }
    }
  }

  // ----- files away from what a call touches -----

  /** `q` is the directory and the name that the path `p` ends in. */
  ghost predicate EndsIn(g: Geo, v: Vol, p: seq<Name>, q: (nat, Name))
    requires Shape(g, v)
  {
    p != [] && ParentOf(g, v, p) == Dir(q.0) && Leaf(p) == q.1
  }

  /** Every exempt name is the end of one of the paths. */
  ghost predicate PathsCover(g: Geo, v: Vol, ex: set<(nat, Name)>, paths: set<seq<Name>>)
    requires Shape(g, v)
  {
    forall q :: q in ex ==> exists p :: p in paths && EndsIn(g, v, p, q)
  }

  /** The path neither is one of the paths nor leads through one. */
  predicate Avoids(path: seq<Name>, paths: set<seq<Name>>) {
    path != [] && forall p :: p in paths ==> !(p <= path)
  }

  lemma StepDown(g: Geo, v: Vol, b: Book, path: seq<Name>, i: nat, x: nat)
    requires Inv(g, v, b) && i < |path| && DirAt(g, v, path[..i]) == Dir(x)
    ensures x in b.dirs
    ensures var e := Entry(g, v, x, path[i]);
      e.Some? && e.value.IsDir() ==> DirAt(g, v, path[..i + 1]) == Dir(e.value.head)
  {
    hide Inv, Entry, ResolveFrom, FatOk, Walkable;
    InvRoot(g, v, b);
    var p := path[..i + 1];
    assert p[..|p| - 1] == path[..i] && Leaf(p) == path[i];
    PathFacts(g, v, b, p);
    ParentIsDirAt(g, v, p);
  }

  /** A path that ends where a step of another one is taken leads there. */
  lemma EndsOnTheWay(g: Geo, v: Vol, b: Book, p: seq<Name>, path: seq<Name>, i: nat, x: nat)
    requires Inv(g, v, b) && Shape(g, v) && i < |path| && DirAt(g, v, path[..i]) == Dir(x)
    requires EndsIn(g, v, p, (x, path[i]))
    ensures p <= path
  {
    hide Inv, ResolveFrom, Resolve, ParentOf;
    ParentIsDirAt(g, v, p);
    PathIsUnique(g, v, b, p[..|p| - 1], path[..i]);
    assert p == path[..i] + [path[i]] == path[..i + 1];
  }

  lemma NotTouched(g: Geo, v: Vol, b: Book, path: seq<Name>, i: nat, x: nat, ex: set<(nat, Name)>,
                   paths: set<seq<Name>>)
    requires Inv(g, v, b) && Shape(g, v) && i < |path| && DirAt(g, v, path[..i]) == Dir(x)
    requires Avoids(path, paths) && PathsCover(g, v, ex, paths)
    ensures (x, path[i]) !in ex
  {
    hide Inv, DirAt, EndsIn;
    forall p | p in paths && EndsIn(g, v, p, (x, path[i])) ensures p <= path {
      EndsOnTheWay(g, v, b, p, path, i, x);
    }
  }

  /** What a call touches is not on the way to a file that its paths do not lead to. */
  lemma {:induction false} ClearAvoiding(g: Geo, v: Vol, b: Book, path: seq<Name>, i: nat, x: nat,
                                         paths: set<seq<Name>>, dirs: set<nat>, ex: set<(nat, Name)>)
    requires Inv(g, v, b) && i < |path| && DirAt(g, v, path[..i]) == Dir(x)
    requires ResolveFrom(g, v, x, path[i..]).Found? && Avoids(path, paths)
    requires OnlyEmptyGone(g, v, b, dirs) && PathsCover(g, v, ex, paths)
    ensures Clear(g, v, x, path[i..], dirs, ex)
    decreases |path| - i
  {
    hide Inv, Entry, Resolve, Avoids, PathsCover;
    InvRoot(g, v, b);
    StepDown(g, v, b, path, i, x);
    NotTouched(g, v, b, path, i, x, ex, paths);
    var rest := path[i..];
    assert rest[0] == path[i] && Entry(g, v, x, rest[0]).Some?;
    if |rest| > 1 {
      assert rest[1..] == path[i + 1..];
      ClearAvoiding(g, v, b, path, i + 1, Entry(g, v, x, rest[0]).value.head, paths, dirs, ex);
    }
  }
}
