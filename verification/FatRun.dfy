/** Whole runs of the driver: any sequence of calls, and files written, appended to and read back. */
module FatRun {
  import opened Basics
  import opened FatLayout
  import opened FatView
  import opened FatInv
  import opened FatSteps
  import opened FatVolume
  import opened FatDir
  import opened FatGrow
  import opened FatCreate
  import opened FatMkdir
  import opened FatUnlink
  import opened FatRename
  import opened FatFile
  import FatOnCard
  import opened FatAppend
  import opened FatAtomic
  import opened FatTree

  // ----- calls -----

  datatype Call =
    | Create(path: seq<Name>, data: seq<byte>)
    | Append(path: seq<Name>, data: seq<byte>)
    | Unlink(path: seq<Name>)
    | Rename(path: seq<Name>, to: seq<Name>)
    | Mkdir(path: seq<Name>)
    | WriteAtomic(path: seq<Name>, data: seq<byte>)
  {
    /** The driver's lengths are 32 bits wide. */
    predicate Ok() {
      && path != []
      && (Create? || Append? || WriteAtomic? ==> |data| < 0x1_0000_0000)
      && (Rename? ==> to != [])
    }

    /** The paths that the call may give another meaning. */
    function Paths(): set<seq<Name>>
      requires Ok()
    {
      match this
      case Rename(path, to) => {path, to}
      case WriteAtomic(path, data) => {path, TempPath(path)}
      case _ => {path}
    }
  }

  /** A call that may change what some paths mean, and may drop empty directories, but nothing else. */
  ghost predicate Frame(g: Geo, v: Vol, b: Book, h: seq<Vol>, v': Vol, h': seq<Vol>,
                        paths: set<seq<Name>>, dirs: set<nat>, ex: set<(nat, Name)>)
  {
    && Shape(g, v) && OnlyEmptyGone(g, v, b, dirs) && PathsCover(g, v, ex, paths)
    && Keeps(g, v, v', dirs, ex) && h <= h' && KeptSince(g, v, dirs, ex, h', |h|)
  }

  ghost predicate Framed(g: Geo, v: Vol, b: Book, h: seq<Vol>, v': Vol, h': seq<Vol>, paths: set<seq<Name>>) {
    exists dirs, ex :: Frame(g, v, b, h, v', h', paths, dirs, ex)
  }

  lemma CoverOne(g: Geo, v: Vol, path: seq<Name>)
    requires Shape(g, v) && path != []
    ensures ParentOf(g, v, path).Dir? ==> PathsCover(g, v, {(ParentOf(g, v, path).id, Leaf(path))}, {path})
  {
    hide ParentOf;
    if ParentOf(g, v, path).Dir? {
      assert EndsIn(g, v, path, (ParentOf(g, v, path).id, Leaf(path)));
    }
  }

  lemma CoverTwo(g: Geo, v: Vol, p: seq<Name>, q: seq<Name>, x: nat)
    requires Shape(g, v) && p != [] && q != [] && ParentOf(g, v, p) == ParentOf(g, v, q) == Dir(x)
    ensures PathsCover(g, v, {(x, Leaf(p)), (x, Leaf(q))}, {p, q})
  {
    hide ParentOf;
    assert EndsIn(g, v, p, (x, Leaf(p))) && EndsIn(g, v, q, (x, Leaf(q)));
  }

  lemma PlanParents(g: Geo, v: Vol, path: seq<Name>, to: seq<Name>)
    requires Shape(g, v) && path != [] && to != [] && RenamePlan(g, v, path, to).Go?
    ensures ParentOf(g, v, path) == ParentOf(g, v, to) == Dir(RenamePlan(g, v, path, to).x)
  {
    hide ParentOf, Resolve;
  }

  lemma AllKept(g: Geo, v: Vol, b: Book)
    requires Inv(g, v, b)
    ensures OnlyEmptyGone(g, v, b, b.dirs) && Keeps(g, v, v, b.dirs, {})
  {
    SameSelf(g, v, b);
    SameKeeps(g, v, v, b.dirs, {}, {});
  }

  lemma CreateFramed(g: Geo, v: Vol, b: Book, h: seq<Vol>, v': Vol, b': Book, h': seq<Vol>,
                     path: seq<Name>, data: seq<byte>, st: Status)
    requires Inv(g, v, b) && Shape(g, v') && path != []
    requires CreateSpec(g, v, b, v', b', path, data, st) && SoundStep(g, v, b, h, v', b', h', {})
    ensures Framed(g, v, b, h, v', h', {path})
  {
    hide Inv, OnlyEmptyGone, Keeps, KeptSince;
    AllKept(g, v, b);
    PathFacts(g, v, b, path);
    if ParentOf(g, v, path).Dir? {
      CreateStretch(g, v, b, h, v', b', h', path, ParentOf(g, v, path).id, data, st);
    }
    assert Frame(g, v, b, h, v', h', {path}, b.dirs, {});
  }

  lemma AppendFramed(g: Geo, v: Vol, b: Book, h: seq<Vol>, v': Vol, b': Book, h': seq<Vol>,
                     path: seq<Name>, data: seq<byte>, st: Status)
    requires Inv(g, v, b) && FatAppend.AppendSpec(g, v, b, h, v', b', h', path, data, st)
    ensures Framed(g, v, b, h, v', h', {path})
  {
    hide Inv, OnlyEmptyGone, Keeps, KeptSince, AppendSpecOf;
    AllKept(g, v, b);
    CoverOne(g, v, path);
    AppendKeeps(g, v, b, h, v', b', h', path, data, st);
    assert Frame(g, v, b, h, v', h', {path}, b.dirs, AppendEx(g, v, path));
  }

  lemma AppendKeeps(g: Geo, v: Vol, b: Book, h: seq<Vol>, v': Vol, b': Book, h': seq<Vol>,
                    path: seq<Name>, data: seq<byte>, st: Status)
    requires Inv(g, v, b) && FatAppend.AppendSpec(g, v, b, h, v', b', h', path, data, st)
    ensures Keeps(g, v, v', b.dirs, AppendEx(g, v, path))
  {
    hide Inv, KeptSince, AppendResult;
    SameSelf(g, v, b);
    PathFacts(g, v, b, path);
    var ex := AppendEx(g, v, path);
    if data == [] || (Resolve(g, v, path).Miss? && Resolve(g, v, path) != Miss(NotFound)) {
      SameKeeps(g, v, v', b.dirs, {}, ex);
    } else if Resolve(g, v, path) == Miss(NotFound) {
      CreateKeeps(g, v, b, v', b', path, data, st);
      KeepsMore(g, v, v', b.dirs, ex);
    } else if Resolve(g, v, path).ent.IsDir() || st == NoSpace {
      SameKeeps(g, v, v', b.dirs, {}, ex);
    } else {
      SameKeeps(g, v, v', b.dirs, ex, ex);
    }
  }

  lemma CreateKeeps(g: Geo, v: Vol, b: Book, v': Vol, b': Book, path: seq<Name>, data: seq<byte>, st: Status)
    requires Inv(g, v, b) && Shape(g, v') && path != [] && CreateSpec(g, v, b, v', b', path, data, st)
    ensures Keeps(g, v, v', b.dirs, {})
  {
    hide Inv, Fits;
    PathFacts(g, v, b, path);
    SameSelf(g, v, b);
    if !Resolve(g, v, path).Found? && ParentOf(g, v, path).Dir? && st == Ok {
      SameKeeps(g, v, v', b.dirs, {(ParentOf(g, v, path).id, Leaf(path))}, {});
    } else {
      SameKeeps(g, v, v', b.dirs, {}, {});
    }
  }

  lemma UnlinkFramed(g: Geo, v: Vol, b: Book, h: seq<Vol>, v': Vol, b': Book, h': seq<Vol>, path: seq<Name>, st: Status)
    requires Inv(g, v, b) && Shape(g, v') && path != []
    requires UnlinkSpec(g, v, b, v', b', path, st) && UnlinkStep(g, v, b, h, v', b', h', path)
    ensures Framed(g, v, b, h, v', h', {path})
  {
    hide Inv;
    AllKept(g, v, b);
    PathFacts(g, v, b, path);
    var ex := if ParentOf(g, v, path).Dir? then {(ParentOf(g, v, path).id, Leaf(path))} else {};
    CoverOne(g, v, path);
    if Resolve(g, v, path).Found? && v' != v {
      SameKeeps(g, v, v', b'.dirs, ex, ex);
    } else {
      KeepsMore(g, v, v', b.dirs, ex);
    }
    assert Frame(g, v, b, h, v', h', {path}, b'.dirs, ex);
  }

  lemma MovedFrame(g: Geo, v: Vol, b: Book, h: seq<Vol>, v': Vol, x: nat, path: seq<Name>, to: seq<Name>, e: Ent)
    requires Shape(g, v) && Shape(g, v') && OnlyEmptyGone(g, v, b, b.dirs) && path != [] && to != []
    requires ParentOf(g, v, path) == ParentOf(g, v, to) == Dir(x)
    requires Moved(g, v, b, v', x, Leaf(path), Leaf(to), e)
    ensures Frame(g, v, b, h, v', h + [v'], {path, to}, b.dirs, {(x, Leaf(path)), (x, Leaf(to))})
  {
    var n, n2 := Leaf(path), Leaf(to);
    CoverTwo(g, v, path, to, x);
    SameKeeps(g, v, v', b.dirs, {(x, n), (x, n2)}, {(x, n), (x, n2)});
  }

  lemma RenameFramed(g: Geo, v: Vol, b: Book, h: seq<Vol>, v': Vol, h': seq<Vol>, path: seq<Name>, to: seq<Name>,
                     st: Status)
    requires Inv(g, v, b) && Shape(g, v') && path != [] && to != []
    requires RenameSpec(g, v, b, v', path, to, st) && h' == if st == Ok then h + [v'] else h
    ensures Framed(g, v, b, h, v', h', {path, to})
  {
    hide Inv, Moved, RenamePlan, OnlyEmptyGone, Keeps, Framed, Resolve, ParentOf;
    AllKept(g, v, b);
    PlanFacts(g, v, b, path, to);
    var paths := {path, to};
    match RenamePlan(g, v, path, to) {
      case Refuse(why) =>
        FrameIntro(g, v, b, h, v', h', paths, b.dirs, {});
      case Go(x, e) =>
        PlanParents(g, v, path, to);
        MovedFrame(g, v, b, h, v', x, path, to, e);
        FrameIntro(g, v, b, h, v', h', paths, b.dirs, {(x, Leaf(path)), (x, Leaf(to))});
    }
  }

  lemma FrameIntro(g: Geo, v: Vol, b: Book, h: seq<Vol>, v': Vol, h': seq<Vol>,
                   paths: set<seq<Name>>, dirs: set<nat>, ex: set<(nat, Name)>)
    requires Frame(g, v, b, h, v', h', paths, dirs, ex)
    ensures Framed(g, v, b, h, v', h', paths)
  {
  }

  lemma MkdirFramed(g: Geo, v: Vol, b: Book, h: seq<Vol>, v': Vol, b': Book, h': seq<Vol>, path: seq<Name>, st: Status)
    requires Inv(g, v, b) && Shape(g, v') && path != []
    requires MkdirSpec(g, v, b, v', b', path, st) && SoundStep(g, v, b, h, v', b', h', {})
    ensures Framed(g, v, b, h, v', h', {path})
  {
    hide Inv, DirFits;
    AllKept(g, v, b);
    PathFacts(g, v, b, path);
    if !Resolve(g, v, path).Found? && ParentOf(g, v, path).Dir? && st == Status.Ok {
      SameKeeps(g, v, v', b.dirs, {(ParentOf(g, v, path).id, Leaf(path))}, {});
    } else if v' != v {
      SameKeeps(g, v, v', b.dirs, {}, {});
    }
    assert Frame(g, v, b, h, v', h', {path}, b.dirs, {});
  }

  lemma AtomicFramed(g: Geo, v: Vol, b: Book, h: seq<Vol>, v': Vol, b': Book, h': seq<Vol>,
                     path: seq<Name>, data: seq<byte>, st: Status)
    requires Inv(g, v, b) && path != [] && AtomicSpec(g, v, b, h, v', b', h', path, data, st)
    ensures Framed(g, v, b, h, v', h', {path, TempPath(path)})
  {
    hide Inv, Fits, Survives, Removable;
    AllKept(g, v, b);
    var paths := {path, TempPath(path)};
    match ParentOf(g, v, path) {
      case NoDir(err) =>
        assert Frame(g, v, b, h, v', h', paths, b.dirs, {});
      case Dir(x) =>
        var ex := {(x, Leaf(path)), (x, TempName())};
        TempParent(g, v, path);
        CoverTwo(g, v, path, TempPath(path), x);
        SameKeeps(g, v, v', b'.dirs, ex, ex);
        assert Frame(g, v, b, h, v', h', paths, b'.dirs, ex);
    }
  }

  // ----- where a run may start -----

  /** A freshly formatted volume: only the root directory is there, and it is empty. */
  ghost predicate Formatted(g: Geo, v: Vol) {
    && g.Ok() && Shape(g, v)
    && (forall c :: 0 <= c < |v.fat| && g.InData(c) ==> v.fat[c] == if c == g.rootCluster then g.Eoc() else 0)
    && (forall c :: g.clusters + 2 <= c < |v.fat| ==> v.fat[c] != 0)
    && (forall j :: 0 <= j < g.rootSecs && j < |v.area| ==> v.area[j] == Zero())
    && (g.fat32 ==> forall s :: 0 <= s < g.spc && g.SecOf(g.rootCluster, s) < |v.area| ==>
          v.area[g.SecOf(g.rootCluster, s)] == Zero())
  }

  function FormattedBook(g: Geo): Book {
    Book({g.rootCluster},
         if g.fat32 && g.InData(g.rootCluster) then map[g.rootCluster := [g.rootCluster]] else map[],
         map[])
  }

  lemma FormattedRoot(g: Geo, v: Vol)
    requires Formatted(g, v)
    ensures var secs := Secs(g, FormattedBook(g), g.rootCluster);
      InArea(v.area, secs) && forall k :: 0 <= k < 16 * |secs| ==> Slot(v.area, secs, k)[0] == 0
  {
    var secs := Secs(g, FormattedBook(g), g.rootCluster);
    forall j | 0 <= j < |secs| ensures secs[j] < |v.area| && v.area[secs[j]] == Zero() {
      if g.fat32 {
        OneCluster(g, g.rootCluster);
        SecOfInRange(g, g.rootCluster, j);
      }
    }
  }

  /** A formatted volume satisfies the invariant, so runs have something to start from. */
  lemma FormattedIsSound(g: Geo, v: Vol)
    requires Formatted(g, v)
    ensures Inv(g, v, FormattedBook(g))
  {
    FormattedRoot(g, v);
  }

  // ----- files that a run does not touch -----

  /** One call leaves every file readable, throughout, that its paths do not lead to. */
  lemma FrameReads(g: Geo, v: Vol, b: Book, h: seq<Vol>, v': Vol, h': seq<Vol>, paths: set<seq<Name>>,
                   path: seq<Name>, bytes: seq<byte>)
    requires Inv(g, v, b) && Framed(g, v, b, h, v', h', paths)
    requires Shape(g, v) && Avoids(path, paths) && Reads(g, v, path, bytes)
    ensures Shape(g, v') && Reads(g, v', path, bytes) && AllRead(g, h', |h|, path, bytes)
  {
    hide Inv, OnlyEmptyGone, Clear;
    var dirs, ex :| Frame(g, v, b, h, v', h', paths, dirs, ex);
    InvRoot(g, v, b);
    assert path[..0] == [] && path[0..] == path;
    ClearAvoiding(g, v, b, path, 0, g.rootCluster, paths, dirs, ex);
    ReadsKept(g, v, v', path, bytes, dirs, ex);
    AllReadKept(g, v, path, bytes, dirs, ex, h', |h|);
    KeepsShape(g, v, v', dirs, ex);
  }

  /** Every file that no call's paths lead to reads the same, at the end and at every moment since. */
  ghost predicate Undisturbed(g: Geo, v: Vol, v': Vol, h: seq<Vol>, from: nat, paths: set<seq<Name>>) {
    && Shape(g, v) && Shape(g, v')
    && forall path: seq<Name>, bytes: seq<byte> :: Avoids(path, paths) && Reads(g, v, path, bytes) ==>
         Reads(g, v', path, bytes) && AllRead(g, h, from, path, bytes)
  }

  lemma UndisturbedStep(g: Geo, v: Vol, v1: Vol, b1: Book, h1: seq<Vol>, v2: Vol, h2: seq<Vol>, from: nat,
                        paths: set<seq<Name>>, more: set<seq<Name>>)
    requires Undisturbed(g, v, v1, h1, from, paths) && from <= |h1| && h1 <= h2
    requires Inv(g, v1, b1) && Framed(g, v1, b1, h1, v2, h2, more) && Shape(g, v2)
    ensures Undisturbed(g, v, v2, h2, from, paths + more)
  {
    hide Inv, Framed, Reads;
    forall path: seq<Name>, bytes: seq<byte> | Avoids(path, paths + more) && Reads(g, v, path, bytes)
      ensures Reads(g, v2, path, bytes) && AllRead(g, h2, from, path, bytes)
    {
      assert Avoids(path, paths) && Avoids(path, more);
      FrameReads(g, v1, b1, h1, v2, h2, more, path, bytes);
      AllReadMore(g, h1, h2, from, path, bytes);
    }
  }

  lemma AllReadMore(g: Geo, h: seq<Vol>, h': seq<Vol>, from: nat, path: seq<Name>, bytes: seq<byte>)
    requires AllRead(g, h, from, path, bytes) && h <= h' && from <= |h| && AllRead(g, h', |h|, path, bytes)
    ensures AllRead(g, h', from, path, bytes)
  {
    assert forall k :: from <= k < |h| ==> h'[k] == h[k];
  }

  lemma FramedHist(g: Geo, v: Vol, b: Book, h: seq<Vol>, v': Vol, h': seq<Vol>, paths: set<seq<Name>>)
    requires Framed(g, v, b, h, v', h', paths)
    ensures h <= h'
  {
  }

  /** Performs one call. */
  method Perform(fs: Volume, call: Call) returns (st: Status)
    requires Sound(fs) && call.Ok()
    modifies fs.Arrays(), fs`vol, fs`hist, fs`cacheNext, fs`book
    ensures Sound(fs)
    ensures Framed(fs.g, old(fs.vol), old(fs.book), old(fs.hist), fs.vol, fs.hist, call.Paths())
  {
    hide Volume.Valid, Inv, CreateSpec, UnlinkSpec, UnlinkStep, RenameSpec, MkdirSpec, Framed;
    hide FatAppend.AppendSpec, AtomicSpec, KeptSince;
    ghost var v, b, h := fs.vol, fs.book, fs.hist;
    match call {
      case Create(path, data) =>
        st := FatCreate.FatCreate(fs, path, data);
        CreateFramed(fs.g, v, b, h, fs.vol, fs.book, fs.hist, path, data, st);
      case Append(path, data) =>
        st := FatAppend.FatAppend(fs, path, data);
        AppendSound(fs.g, v, b, h, fs.vol, fs.book, fs.hist, path, data, st);
        AppendFramed(fs.g, v, b, h, fs.vol, fs.book, fs.hist, path, data, st);
      case Unlink(path) =>
        st := FatUnlink.FatUnlink(fs, path);
        UnlinkFramed(fs.g, v, b, h, fs.vol, fs.book, fs.hist, path, st);
      case Rename(path, to) =>
        st := FatRename.FatRename(fs, path, to);
        RenameFramed(fs.g, v, b, h, fs.vol, fs.hist, path, to, st);
      case Mkdir(path) =>
        st := FatMkdir.FatMkdir(fs, path);
        MkdirFramed(fs.g, v, b, h, fs.vol, fs.book, fs.hist, path, st);
      case WriteAtomic(path, data) =>
        st := FatAtomic.FatWriteAtomic(fs, path, data);
        AtomicFramed(fs.g, v, b, h, fs.vol, fs.book, fs.hist, path, data, st);
    }
  }

  lemma AppendSound(g: Geo, v: Vol, b: Book, h: seq<Vol>, v': Vol, b': Book, h': seq<Vol>,
                    path: seq<Name>, data: seq<byte>, st: Status)
    requires FatAppend.AppendSpec(g, v, b, h, v', b', h', path, data, st)
    ensures Inv(g, v', b')
  {
  }

  /** All paths that some call of the run may give another meaning. */
  function RunPaths(calls: seq<Call>): set<seq<Name>>
    requires forall c :: c in calls ==> c.Ok()
  {
    if calls == [] then {} else RunPaths(calls[..|calls| - 1]) + calls[|calls| - 1].Paths()
  }

  /**
   Any sequence of calls, including those that fail: the volume is sound after each, and at every
   moment in between all files that no call's paths lead to can be read as before.
   */
  method Run(fs: Volume, calls: seq<Call>) returns (results: seq<Status>)
    requires Sound(fs) && forall c :: c in calls ==> c.Ok()
    modifies fs.Arrays(), fs`vol, fs`hist, fs`cacheNext, fs`book
    ensures Sound(fs) && |results| == |calls| && old(fs.hist) <= fs.hist
    ensures Undisturbed(fs.g, old(fs.vol), fs.vol, fs.hist, |old(fs.hist)|, RunPaths(calls))
  {
    hide Volume.Valid, Inv, Framed, Undisturbed;
    results := [];
    ghost var v0, from := fs.vol, |fs.hist|;
    NothingDisturbed(fs.g, v0, fs.hist);
    assert calls[..0] == [];
    for i := 0 to |calls|
      invariant Sound(fs) && |results| == i && from <= |fs.hist| && old(fs.hist) <= fs.hist
      invariant Undisturbed(fs.g, v0, fs.vol, fs.hist, from, RunPaths(calls[..i]))
    {
      ghost var v1, b1, h1 := fs.vol, fs.book, fs.hist;
      var st := Perform(fs, calls[i]);
      results := results + [st];
      FramedHist(fs.g, v1, b1, h1, fs.vol, fs.hist, calls[i].Paths());
      UndisturbedStep(fs.g, v0, v1, b1, h1, fs.vol, fs.hist, from, RunPaths(calls[..i]), calls[i].Paths());
      assert calls[..i + 1][..i] == calls[..i];
    }
    assert calls[..|calls|] == calls;
  }

  /**
   A whole session, from mounting to the last call: the card holds a sound volume again, files that no
   call's paths lead to can be read throughout, and the two FATs agree if they did at the start.
   */
  method Session(g: Geo, card: array<Sector>, ghost b: Book, calls: seq<Call>)
    returns (results: seq<Status>, ghost b': Book, ghost hist: seq<Vol>)
    requires g.Ok() && g.AreaLba() + g.AreaSize() <= card.Length
    requires Inv(g, View(g, card[..]), b) && forall c :: c in calls ==> c.Ok()
    modifies card
    ensures |results| == |calls| && Inv(g, View(g, card[..]), b')
    ensures Undisturbed(g, old(View(g, card[..])), View(g, card[..]), hist, 0, RunPaths(calls))
    ensures old(FatsAgree(g, card[..])) ==> FatsAgree(g, card[..])
  {
    hide Inv, Undisturbed, FatsAgree, View;
    var fs := new Volume(g, card, b);
    results := Run(fs, calls);
    b', hist := fs.book, fs.hist;
  }

  lemma NothingDisturbed(g: Geo, v: Vol, h: seq<Vol>)
    requires Shape(g, v)
    ensures Undisturbed(g, v, v, h, |h|, {})
  {
  }

  // ----- a file written in pieces and read back in pieces -----

  function Concat(pieces: seq<seq<byte>>): seq<byte> {
    if pieces == [] then [] else Concat(pieces[..|pieces| - 1]) + pieces[|pieces| - 1]
  }

  /** The path denotes a non-empty file with these bytes, on a chain that is no longer than needed. */
  ghost predicate FileIs(g: Geo, v: Vol, b: Book, path: seq<Name>, bytes: seq<byte>) {
    && Inv(g, v, b) && path != [] && ParentOf(g, v, path).Dir? && bytes != []
    && HoldsFile(g, v, ParentOf(g, v, path).id, Leaf(path), bytes)
    && Tight(g, v, Entry(g, v, ParentOf(g, v, path).id, Leaf(path)).value)
  }

  lemma CreatedIs(g: Geo, v: Vol, b: Book, h: seq<Vol>, v': Vol, b': Book, h': seq<Vol>, path: seq<Name>,
                  data: seq<byte>)
    requires Inv(g, v, b) && Shape(g, v') && path != [] && data != []
    requires CreateSpec(g, v, b, v', b', path, data, Status.Ok) && SoundStep(g, v, b, h, v', b', h', {})
    ensures FileIs(g, v', b', path, data)
  {
    PathFacts(g, v, b, path);
    MissIsError(g, v, g.rootCluster, path[..|path| - 1]);
    var x := ParentOf(g, v, path).id;
    CreateStretch(g, v, b, h, v', b', h', path, x, data, Status.Ok);
    ParentOnKeeps(g, v, b, v', path, x);
    hide Inv, Same, Keeps, KeptSince, Fits;
  }

  lemma AppendedIs(g: Geo, v: Vol, b: Book, h: seq<Vol>, v': Vol, b': Book, h': seq<Vol>,
                   path: seq<Name>, bytes: seq<byte>, data: seq<byte>)
    requires FileIs(g, v, b, path, bytes) && |bytes + data| < 0x1_0000_0000
    requires FatAppend.AppendSpec(g, v, b, h, v', b', h', path, data, Status.Ok)
    ensures FileIs(g, v', b', path, bytes + data)
  {
    PathFacts(g, v, b, path);
    var x, n := ParentOf(g, v, path).id, Leaf(path);
    if data == [] {
      assert bytes + data == bytes;
    } else {
      AppendKeeps(g, v, b, h, v', b', h', path, data, Status.Ok);
      ParentWithout(g, v, b, v', path, x);
      hide Inv, Keeps, KeptSince, AppendResult, Same, Tight;
      var base :| AppendResult(g, v, v', x, n, Entry(g, v, x, n).value, base, data);
      AppendConcatenates(g, v, b, v', x, n, base, data);
      AppendedHolds(g, v, v', x, n, base, bytes, data);
    }
  }

  lemma AppendedHolds(g: Geo, v: Vol, v': Vol, x: nat, n: Name, base: seq<byte>, bytes: seq<byte>, data: seq<byte>)
    requires HoldsFile(g, v, x, n, bytes) && Shape(g, v')
    requires AppendResult(g, v, v', x, n, Entry(g, v, x, n).value, base, data)
    requires var e' := Entry(g, v', x, n).value; FileBytes(g, v', e') == bytes + data && e'.size == |bytes| + |data|
    ensures HoldsFile(g, v', x, n, bytes + data)
  {
  }

  /** Opens the file and reads it from the start in pieces of the given sizes. */
  method Load(fs: Volume, path: seq<Name>, sizes: seq<nat>, ghost bytes: seq<byte>)
    returns (st: Status, data: seq<byte>)
    requires fs.Valid() && FileIs(fs.g, fs.vol, fs.book, path, bytes)
    modifies fs.Scratch(), fs`cacheNext
    ensures fs.Valid() && st == Status.Ok
    ensures data == bytes[..if Sum(sizes) < |bytes| then Sum(sizes) else |bytes|]
  {
    hide Volume.Valid, FileIs, FatOk, Walkable, FatOnCard.OnCard, Resolve;
    var f := new OpenFile();
    LoadFacts(fs.g, fs.vol, fs.book, path, bytes);
    st := FatOpen(fs, path, f);
    data := ReadInPieces(fs, f, sizes);
  }

  lemma LoadFacts(g: Geo, v: Vol, b: Book, path: seq<Name>, bytes: seq<byte>)
    requires FileIs(g, v, b, path, bytes)
    ensures Shape(g, v) && FatOk(g, v.fat) && Walkable(g, v, g.rootCluster, path) && Resolve(g, v, path).Found?
    ensures var e := Resolve(g, v, path).ent;
      !e.IsDir() && Readable(g, v, e) && FileBytes(g, v, Ent(0, e.head, e.size)) == bytes
  {
    PathFacts(g, v, b, path);
    SoundReadable(g, v, b, ParentOf(g, v, path).id, Leaf(path));
  }

  /** Appends pieces `1..` to the file, one call each. */
  method AppendRest(fs: Volume, path: seq<Name>, pieces: seq<seq<byte>>) returns (st: Status)
    requires fs.Valid() && pieces != [] && |Concat(pieces)| < 0x1_0000_0000
    requires FileIs(fs.g, fs.vol, fs.book, path, Concat(pieces[..1]))
    modifies fs.Arrays(), fs`vol, fs`hist, fs`cacheNext, fs`book
    ensures Sound(fs)
    ensures st == Status.Ok ==> FileIs(fs.g, fs.vol, fs.book, path, Concat(pieces))
  {
    hide Volume.Valid, Inv, FileIs, FatAppend.AppendSpec, Concat;
    FileSound(fs.g, fs.vol, fs.book, path, Concat(pieces[..1]));
    st := Status.Ok;
    var i := 1;
    while i < |pieces|
      invariant Sound(fs) && 1 <= i <= |pieces| && st == Status.Ok
      invariant FileIs(fs.g, fs.vol, fs.book, path, Concat(pieces[..i]))
    {
      PieceBound(pieces, i + 1);
      ghost var v1, b1, h1 := fs.vol, fs.book, fs.hist;
      FileSound(fs.g, v1, b1, path, Concat(pieces[..i]));
      st := FatAppend.FatAppend(fs, path, pieces[i]);
      AppendSound(fs.g, v1, b1, h1, fs.vol, fs.book, fs.hist, path, pieces[i], st);
      if st != Status.Ok {
        return;
      }
      AppendedIs(fs.g, v1, b1, h1, fs.vol, fs.book, fs.hist, path, Concat(pieces[..i]), pieces[i]);
      i := i + 1;
    }
    assert pieces[..|pieces|] == pieces;
  }

  lemma FileSound(g: Geo, v: Vol, b: Book, path: seq<Name>, bytes: seq<byte>)
    requires FileIs(g, v, b, path, bytes)
    ensures Inv(g, v, b) && path != []
  {
  }

  /** Creates the file with the first piece and appends the others. */
  method Store(fs: Volume, path: seq<Name>, pieces: seq<seq<byte>>) returns (st: Status)
    requires Sound(fs) && path != [] && pieces != [] && pieces[0] != [] && |Concat(pieces)| < 0x1_0000_0000
    modifies fs.Arrays(), fs`vol, fs`hist, fs`cacheNext, fs`book
    ensures Sound(fs)
    ensures st == Status.Ok ==> FileIs(fs.g, fs.vol, fs.book, path, Concat(pieces))
  {
    hide Volume.Valid, Inv, CreateSpec, FileIs, SoundStep, Concat;
    ghost var v, b, h := fs.vol, fs.book, fs.hist;
    FirstPiece(pieces);
    st := FatCreate.FatCreate(fs, path, pieces[0]);
    if st == Status.Ok {
      CreatedIs(fs.g, v, b, h, fs.vol, fs.book, fs.hist, path, pieces[0]);
      st := AppendRest(fs, path, pieces);
    }
  }

  /**
   A file created with a first piece and extended by any number of appends holds all the pieces, one
   after the other, and reading it back in any chunks yields them.
   */
  method StoreAndLoad(fs: Volume, path: seq<Name>, pieces: seq<seq<byte>>, sizes: seq<nat>)
    returns (st: Status, data: seq<byte>)
    requires Sound(fs) && path != [] && pieces != [] && pieces[0] != [] && |Concat(pieces)| < 0x1_0000_0000
    modifies fs.Arrays(), fs`vol, fs`hist, fs`cacheNext, fs`book
    ensures Sound(fs)
    ensures st == Status.Ok ==>
      data == Concat(pieces)[..if Sum(sizes) < |Concat(pieces)| then Sum(sizes) else |Concat(pieces)|]
  {
    hide Volume.Valid, Inv, FileIs, Concat;
    data := [];
    st := Store(fs, path, pieces);
    if st == Status.Ok {
      st, data := Load(fs, path, sizes, Concat(pieces));
    }
  }

  lemma FirstPiece(pieces: seq<seq<byte>>)
    requires pieces != []
    ensures Concat(pieces[..1]) == pieces[0] && |pieces[0]| <= |Concat(pieces)|
  {
    PieceBound(pieces, 1);
    assert pieces[..0] == [];
  }

  lemma {:induction false} PieceBound(pieces: seq<seq<byte>>, i: nat)
    requires 0 < i <= |pieces|
    ensures Concat(pieces[..i]) == Concat(pieces[..i - 1]) + pieces[i - 1]
    ensures |Concat(pieces[..i])| <= |Concat(pieces)|
    decreases |pieces| - i
  {
    assert pieces[..i][..i - 1] == pieces[..i - 1];
    if i < |pieces| {
      PieceBound(pieces, i + 1);
    } else {
      assert pieces[..i] == pieces;
    }
  }
}
