/** Paths as the driver's callers write them: what resolve_path and resolve_parent make of the text. */
module FatPath {
  import opened Basics
  import opened FatLayout
  import opened FatView
  import opened FatInv
  import opened FatVolume
  import opened FatDir
  import opened FatCreate
  import opened FatName
  import PathUtil

  const LFN_MAX_CHARS: nat := 255
  const PARENT_MAX: nat := 256
  const COMPONENT_MAX: nat := 13

  // ----- components -----

  /** A component ends at a slash, and after 255 characters. */
  function CompEnd(p: Text, i: nat): (j: nat)
    requires i <= |p|
    ensures i <= j <= |p| && (i < |p| && p[i] != '/' ==> i < j)
  {
    var j := PathUtil.NameEnd(p, i);
    if j > i + LFN_MAX_CHARS then i + LFN_MAX_CHARS else j
  }

  function CompsFrom(p: Text, i: nat): seq<Text>
    requires i <= |p|
    decreases |p| - i
  {
    var j := PathUtil.SkipSlashes(p, i);
    if j == |p| then [] else [p[j..CompEnd(p, j)]] + CompsFrom(p, CompEnd(p, j))
  }

  function Comps(p: Text): seq<Text> { CompsFrom(p, 0) }

  /** The slot name of a component; none when no entry without a long name can match it. */
  function NameOf(s: Text): (r: Option<Name>)
  {
    if IsShort(s) && s[0] as int != 0xE5 then
      SlotStart(s);
      Some(Code(SlotName(s)))
    else None
  }

  function Code(s: Text): (r: seq<byte>)
    ensures |r| == |s| && forall i :: 0 <= i < |s| ==> r[i] == s[i] as int
  {
    seq(|s|, i requires 0 <= i < |s| => s[i] as int)
  }

  predicate AllNamed(comps: seq<Text>) { forall i :: 0 <= i < |comps| ==> NameOf(comps[i]).Some? }

  function NamesOf(comps: seq<Text>): (r: seq<Name>)
    requires AllNamed(comps)
    ensures |r| == |comps|
  {
    seq(|comps|, i requires 0 <= i < |comps| => NameOf(comps[i]).value)
  }

  // ----- resolving -----

  function TextEntry(g: Geo, v: Vol, x: nat, s: Text): Option<Ent>
    requires Shape(g, v)
  {
    match NameOf(s)
    case None => None
    case Some(n) => Entry(g, v, x, n)
  }

  /** What a list of components denotes, looked up from directory `x`. */
  function TextFrom(g: Geo, v: Vol, x: nat, comps: seq<Text>): Lookup
    requires Shape(g, v)
    decreases |comps|
  {
    if comps == [] then Miss(NotFound)
    else
      match TextEntry(g, v, x, comps[0])
      case None => Miss(NotFound)
      case Some(e) =>
        if |comps| == 1 then Found(e)
        else if !e.IsDir() then Miss(NotFile)
        else TextFrom(g, v, e.head, comps[1..])
  }

  function TextLookup(g: Geo, v: Vol, p: Text): Lookup
    requires Shape(g, v)
  {
    TextFrom(g, v, g.rootCluster, Comps(p))
  }

  /** Where every component is an 8.3 name, the text means the list of its slot names. */
  lemma {:induction false} TextIsPath(g: Geo, v: Vol, x: nat, comps: seq<Text>)
    requires Shape(g, v) && AllNamed(comps)
    ensures TextFrom(g, v, x, comps) == ResolveFrom(g, v, x, NamesOf(comps))
    decreases |comps|
  {
    hide Entry, NameOf;
    if |comps| > 1 {
      assert NamesOf(comps)[1..] == NamesOf(comps[1..]);
      var e := TextEntry(g, v, x, comps[0]);
      if e.Some? {
        TextIsPath(g, v, e.value.head, comps[1..]);
      }
    }
  }

  /** Directories with no way out: each can be walked, and the directories among its entries are among them. */
  ghost predicate Closed(g: Geo, v: Vol, dirs: set<nat>) {
    && Shape(g, v) && FatOk(g, v.fat) && g.rootCluster in dirs
    && (forall x :: x in dirs ==> WalkableDir(g, v, x))
    && forall x, n: Name :: x in dirs && Entry(g, v, x, n).Some? && Entry(g, v, x, n).value.IsDir() ==>
         Entry(g, v, x, n).value.head in dirs
  }

  lemma SoundClosed(g: Geo, v: Vol, b: Book)
    requires Inv(g, v, b)
    ensures Closed(g, v, b.dirs)
  {
    hide Inv, Entry, WalkableDir, FatOk, FoundAt, EndsAt, Find;
    InvRoot(g, v, b);
    InvTable(g, v, b);
    forall x | x in b.dirs ensures WalkableDir(g, v, x) {
      SoundDirWalkable(g, v, b, x);
    }
    forall x, n: Name | x in b.dirs && Entry(g, v, x, n).Some? && Entry(g, v, x, n).value.IsDir()
      ensures Entry(g, v, x, n).value.head in b.dirs
    {
      var k := EntryFacts(g, v, b, x, n);
    }
  }

  /** Looks a component up in a directory without long names. */
  method LookUpText(fs: Volume, x: nat, component: Text, ghost dirs: set<nat>) returns (e: Option<Ent>)
    requires fs.Valid() && Closed(fs.g, fs.vol, dirs) && x in dirs
    modifies fs.Scratch(), fs`cacheNext
    ensures fs.Valid() && e == TextEntry(fs.g, fs.vol, x, component)
  {
    hide Volume.Valid;
    var name8, ext3 := new Octet[8](_ => ' '), new Octet[3](_ => ' ');
    var whole := Make83(component, name8, ext3);
    var allowShort := ComponentIs83(component);
    if allowShort && component[0] as int != 0xE5 {
      SlotStart(component);
      e := LookUp(fs, x, Code(name8[..] + ext3[..]));
    } else {
      e := None;
    }
  }

  lemma CompsStep(p: Text, i: nat)
    requires i < |p| && p[i] != '/'
    ensures var e := CompEnd(p, i);
      CompsFrom(p, i) == [p[i..e]] + CompsFrom(p, PathUtil.SkipSlashes(p, e))
  {
    var e := CompEnd(p, i);
    SkipTwice(p, e);
  }

  lemma SkipTwice(p: Text, i: nat)
    requires i <= |p|
    ensures CompsFrom(p, PathUtil.SkipSlashes(p, i)) == CompsFrom(p, i)
  {
    var j := PathUtil.SkipSlashes(p, i);
    assert PathUtil.SkipSlashes(p, j) == j;
  }

  lemma {:induction false} SkipIs(p: Text, i: nat, j: nat)
    requires i <= j <= |p| && (j < |p| ==> p[j] != '/') && forall k :: i <= k < j ==> p[k] == '/'
    ensures PathUtil.SkipSlashes(p, i) == j
    decreases j - i
  {
    if i < j { SkipIs(p, i + 1, j); }
  }

  method SkipOver(p: Text, i0: nat) returns (i: nat)
    requires i0 <= |p|
    ensures i == PathUtil.SkipSlashes(p, i0)
  {
    i := i0;
    while i < |p| && p[i] == '/'
      invariant i0 <= i <= |p| && forall k :: i0 <= k < i ==> p[k] == '/'
    {
      i := i + 1;
    }
    SkipIs(p, i0, i);
  }

  /** Copies a component out of the path. */
  method ReadComponent(p: Text, i0: nat) returns (i: nat, component: Text)
    requires i0 <= |p|
    ensures i == CompEnd(p, i0) && component == p[i0..i]
  {
    i, component := i0, [];
    while i < |p| && p[i] != '/' && |component| < LFN_MAX_CHARS
      invariant i0 <= i <= |p| && component == p[i0..i] && |component| <= LFN_MAX_CHARS
      invariant forall k :: i0 <= k < i ==> p[k] != '/'
    {
      component := component + [p[i]];
      i := i + 1;
    }
    EndIs(p, i0, i);
  }

  lemma EndIs(p: Text, i: nat, j: nat)
    requires i <= j <= |p| && j - i <= LFN_MAX_CHARS && forall k :: i <= k < j ==> p[k] != '/'
    requires j == |p| || p[j] == '/' || j - i == LFN_MAX_CHARS
    ensures CompEnd(p, i) == j
  {
    if j == |p| || p[j] == '/' {
      PathUtil.NameEndIs(p, i, j);
    }
  }

  /** One round of the resolver's loop. */
  lemma TextStep(g: Geo, v: Vol, dirs: set<nat>, x: nat, p: Text, i: nat, next: nat)
    requires Closed(g, v, dirs) && x in dirs && i < |p| && p[i] != '/'
    requires next == PathUtil.SkipSlashes(p, CompEnd(p, i))
    ensures var e := TextEntry(g, v, x, p[i..CompEnd(p, i)]);
      TextFrom(g, v, x, CompsFrom(p, i))
      == if e.None? then Miss(NotFound)
         else if next == |p| then Found(e.value)
         else if !e.value.IsDir() then Miss(NotFile)
         else TextFrom(g, v, e.value.head, CompsFrom(p, next))
    ensures var e := TextEntry(g, v, x, p[i..CompEnd(p, i)]);
      e.Some? && e.value.IsDir() ==> e.value.head in dirs
  {
    CompsStep(p, i);
    var c, rest := p[i..CompEnd(p, i)], CompsFrom(p, next);
    assert (rest == []) == (next == |p|) by { assert PathUtil.SkipSlashes(p, next) == next; }
    assert ([c] + rest)[1..] == rest;
  }

  /** Reads the component at `i` and the slashes behind it, and looks it up. */
  method NextEntry(fs: Volume, x: nat, path: Text, i: nat, ghost dirs: set<nat>) returns (next: nat, e: Option<Ent>)
    requires fs.Valid() && Closed(fs.g, fs.vol, dirs) && x in dirs && i < |path|
    modifies fs.Scratch(), fs`cacheNext
    ensures fs.Valid() && next == PathUtil.SkipSlashes(path, CompEnd(path, i))
    ensures e == TextEntry(fs.g, fs.vol, x, path[i..CompEnd(path, i)])
  {
    hide Volume.Valid, Closed, TextEntry, CompEnd;
    var end, component := ReadComponent(path, i);
    next := SkipOver(path, end);
    e := LookUpText(fs, x, component, dirs);
  }

  /** Walks the path from the root, component by component. */
  method ResolveText(fs: Volume, path: Text, ghost dirs: set<nat>) returns (r: Lookup)
    requires fs.Valid() && Closed(fs.g, fs.vol, dirs)
    modifies fs.Scratch(), fs`cacheNext
    ensures fs.Valid() && r == TextLookup(fs.g, fs.vol, path)
  {
    hide Volume.Valid, Closed, TextEntry, TextFrom, TextLookup, CompsFrom, CompEnd, NameOf;
    ClosedRoot(fs.g, fs.vol, dirs);
    TextBegins(fs.g, fs.vol, path);
    ghost var v := fs.vol;
    var i := SkipOver(path, 0);
    var cur := fs.g.rootCluster;
    while i < |path|
      invariant fs.Valid() && fs.vol == v && i <= |path| && (i < |path| ==> path[i] != '/') && cur in dirs
      invariant TextFrom(fs.g, v, cur, CompsFrom(path, i)) == TextLookup(fs.g, v, path)
    {
      var next, e := NextEntry(fs, cur, path, i, dirs);
      TextStep(fs.g, v, dirs, cur, path, i, next);
      if e.None? {
        return Miss(NotFound);
      }
      if next == |path| {
        return Found(e.value);
      }
      if !e.value.IsDir() {
        return Miss(NotFile);
      }
      cur := e.value.head;
      i := next;
    }
    NothingLeft(fs.g, fs.vol, cur, path);
    r := Miss(NotFound);
  }

  lemma ClosedRoot(g: Geo, v: Vol, dirs: set<nat>)
    requires Closed(g, v, dirs)
    ensures Shape(g, v) && g.rootCluster in dirs
  {
  }

  lemma TextBegins(g: Geo, v: Vol, p: Text)
    requires Shape(g, v)
    ensures TextFrom(g, v, g.rootCluster, CompsFrom(p, PathUtil.SkipSlashes(p, 0))) == TextLookup(g, v, p)
  {
    SkipTwice(p, 0);
  }

  lemma NothingLeft(g: Geo, v: Vol, x: nat, p: Text)
    requires Shape(g, v)
    ensures TextFrom(g, v, x, CompsFrom(p, |p|)) == Miss(NotFound)
  {
  }

  lemma NoComps(p: Text)
    ensures CompsFrom(p, |p|) == []
  {
  }

  // ----- the parent of a path -----

  /** The last slash; 0 when there is none. */
  function LastSlash(p: Text): (k: nat)
    ensures k <= |p| && (p != [] ==> k < |p|)
    ensures '/' in p ==> p[k] == '/'
    ensures '/' !in p ==> k == 0
    ensures forall i :: k < i < |p| ==> p[i] != '/'
  {
    if p == [] then 0
    else if p[|p| - 1] == '/' then |p| - 1
    else
      assert p == p[..|p| - 1] + [p[|p| - 1]];
      LastSlash(p[..|p| - 1])
  }

  /** The parent is taken to be the root. */
  predicate InRoot(p: Text)
    requires p != []
  {
    LastSlash(p) == 0 || (LastSlash(p) == 1 && p[0] == '/')
  }

  /** What is taken to be the last component: everything behind the last slash's place. */
  function LastComp(p: Text): Text
    requires p != []
  {
    p[LastSlash(p) + 1..]
  }

  /** What resolve_parent finds: the parent directory, or an error. */
  function ParentLookup(g: Geo, v: Vol, p: Text): DirLookup
    requires Shape(g, v) && p != []
  {
    var k := LastSlash(p);
    var d := if InRoot(p) then Dir(g.rootCluster)
             else if k >= PARENT_MAX then NoDir(NotFound)
             else AsDir(TextLookup(g, v, p[..k]));
    if d.Dir? && (LastComp(p) == [] || |LastComp(p)| >= COMPONENT_MAX) then NoDir(NotFound) else d
  }

  lemma {:induction false} LastSlashIs(p: Text, k: nat)
    requires k < |p| && (p[k] == '/' || k == 0) && forall i :: k < i < |p| ==> p[i] != '/'
    ensures LastSlash(p) == k
  {
    if p[k] == '/' {
      assert '/' in p;
    }
  }

  method ResolveParentText(fs: Volume, path: Text, ghost dirs: set<nat>) returns (d: DirLookup, component: Text)
    requires fs.Valid() && Closed(fs.g, fs.vol, dirs) && path != []
    modifies fs.Scratch(), fs`cacheNext
    ensures fs.Valid() && d == ParentLookup(fs.g, fs.vol, path)
    ensures d.Dir? ==> component == LastComp(path)
  {
    hide Volume.Valid, Closed, TextLookup;
    ClosedRoot(fs.g, fs.vol, dirs);
    component := [];
    var lastSlash := 0;
    for p := 0 to |path|
      invariant lastSlash < |path| && (path[lastSlash] == '/' || lastSlash == 0)
      invariant forall i :: lastSlash < i < p ==> path[i] != '/'
    {
      if path[p] == '/' {
        lastSlash := p;
      }
    }
    LastSlashIs(path, lastSlash);
    if lastSlash == 0 || (lastSlash == 1 && path[0] == '/') {
      d := Dir(fs.g.rootCluster);
    } else {
      if lastSlash >= PARENT_MAX {
        return NoDir(NotFound), component;
      }
      var r := ResolveText(fs, path[..lastSlash], dirs);
      d := AsDir(r);
      if d.NoDir? {
        return;
      }
    }
    var comp := path[lastSlash + 1..];
    if comp == [] || |comp| >= COMPONENT_MAX {
      return NoDir(NotFound), component;
    }
    component := comp;
  }

  // ----- when the two agree -----

  /** `p` is `a`, a slash, and `b`. */
  ghost predicate Joins(p: Text, a: Text, b: Text) {
    && |p| == |a| + 1 + |b| && p[|a|] == '/'
    && (forall k :: 0 <= k < |a| ==> p[k] == a[k])
    && forall k :: |a| < k < |p| ==> p[k] == b[k - |a| - 1]
  }

  lemma SkipCat(p: Text, a: Text, b: Text, i: nat)
    requires Joins(p, a, b) && i <= |a|
    ensures var j := PathUtil.SkipSlashes(a, i);
      PathUtil.SkipSlashes(p, i) == if j < |a| then j else |a| + 1 + PathUtil.SkipSlashes(b, 0)
  {
    var j := PathUtil.SkipSlashes(a, i);
    SkipIs(p, i, if j < |a| then j else |a| + 1 + PathUtil.SkipSlashes(b, 0));
  }

  lemma SkipShift(p: Text, a: Text, b: Text, i: nat)
    requires Joins(p, a, b) && i <= |b|
    ensures PathUtil.SkipSlashes(p, |a| + 1 + i) == |a| + 1 + PathUtil.SkipSlashes(b, i)
  {
    SkipIs(p, |a| + 1 + i, |a| + 1 + PathUtil.SkipSlashes(b, i));
  }

  lemma EndCat(p: Text, a: Text, b: Text, i: nat)
    requires Joins(p, a, b) && i < |a|
    ensures CompEnd(p, i) == CompEnd(a, i) && p[i..CompEnd(a, i)] == a[i..CompEnd(a, i)]
  {
    PathUtil.NameEndIs(p, i, PathUtil.NameEnd(a, i));
  }

  /** A component behind a slash ends where it would end on its own. */
  lemma EndShift(p: Text, a: Text, b: Text, j: nat)
    requires Joins(p, a, b) && j < |b|
    ensures var c, n := CompEnd(b, j), |a| + 1; CompEnd(p, n + j) == n + c && p[n + j..n + c] == b[j..c]
  {
    PathUtil.NameEndIs(p, |a| + 1 + j, |a| + 1 + PathUtil.NameEnd(b, j));
  }

  lemma CompsAt(p: Text, i: nat, j: nat)
    requires i <= |p| && PathUtil.SkipSlashes(p, i) == j
    ensures CompsFrom(p, i) == if j == |p| then [] else [p[j..CompEnd(p, j)]] + CompsFrom(p, CompEnd(p, j))
  {
  }

  lemma Associates(c: Text, s: seq<Text>, t: seq<Text>)
    ensures [c] + (s + t) == ([c] + s) + t
  {
  }

  lemma JoinsLength(p: Text, a: Text, b: Text)
    requires Joins(p, a, b)
    ensures |p| == |a| + 1 + |b|
  {
  }

  lemma {:induction false} CompsShift(p: Text, a: Text, b: Text, i: nat)
    requires Joins(p, a, b) && i <= |b|
    ensures CompsFrom(p, |a| + 1 + i) == CompsFrom(b, i)
    decreases |b| - i
  {
    hide CompsFrom, CompEnd, Joins, PathUtil.SkipSlashes;
    var n, j := |a| + 1, PathUtil.SkipSlashes(b, i);
    JoinsLength(p, a, b);
    SkipShift(p, a, b, i);
    CompsAt(p, n + i, n + j);
    CompsAt(b, i, j);
    if j < |b| {
      EndShift(p, a, b, j);
      CompsShift(p, a, b, CompEnd(b, j));
    }
  }

  /** A slash separates: the components on its two sides do not interact. */
  lemma {:induction false} CompsCat(p: Text, a: Text, b: Text, i: nat)
    requires Joins(p, a, b) && i <= |a|
    ensures CompsFrom(p, i) == CompsFrom(a, i) + Comps(b)
    decreases |a| - i
  {
    hide CompsFrom, CompEnd;
    hide Joins;
    var j, m := PathUtil.SkipSlashes(a, i), PathUtil.SkipSlashes(b, 0);
    SkipCat(p, a, b, i);
    CompsAt(a, i, j);
    if j < |a| {
      CompsAt(p, i, j);
      EndCat(p, a, b, j);
      CompsCat(p, a, b, CompEnd(a, j));
      Associates(a[j..CompEnd(a, j)], CompsFrom(a, CompEnd(a, j)), Comps(b));
    } else {
      CompsShift(p, a, b, 0);
      SkipShift(p, a, b, 0);
      CompsAt(p, i, |a| + 1 + m);
      CompsAt(p, |a| + 1, |a| + 1 + m);
    }
  }

  /** A text without slashes that is short enough is one component. */
  lemma OneComp(t: Text)
    requires '/' !in t && t != []
    ensures |t| <= LFN_MAX_CHARS ==> Comps(t) == [t]
    ensures |t| > LFN_MAX_CHARS ==> Comps(t) != [] && |Comps(t)[0]| == LFN_MAX_CHARS
  {
    PathUtil.NameEndIs(t, 0, |t|);
    CompsStep(t, 0);
    if |t| <= LFN_MAX_CHARS {
      NoComps(t);
      assert t[0..|t|] == t;
    }
  }

  /** resolve_parent looks for the last component of the path in the directory that the others lead to. */
  predicate SplitsRight(p: Text)
    requires p != []
  {
    var comps, k := Comps(p), LastSlash(p);
    && comps != []
    && LastComp(p) == comps[|comps| - 1]
    && (if InRoot(p) then |comps| == 1
        else k < PARENT_MAX && Comps(p[..k]) != [] && Comps(p[..k]) == comps[..|comps| - 1])
  }

  /**
   The path contains a slash, does not end in one, has a parent of fewer than 256 characters, and does not
   begin with several slashes when it names something in the root.
   */
  predicate Usual(p: Text)
    requires p != []
  {
    && '/' in p && p[|p| - 1] != '/' && LastSlash(p) < PARENT_MAX
    && (|Comps(p)| == 1 ==> LastSlash(p) <= 1)
  }

  lemma CompsWhole(p: Text, a: Text, b: Text)
    requires Joins(p, a, b)
    ensures Comps(p) == Comps(a) + Comps(b)
  {
    hide CompsFrom, Joins;
    CompsCat(p, a, b, 0);
  }

  lemma NoCompsAtAll()
    ensures Comps([]) == []
  {
  }

  /** The last slash cuts the path into its last component and the others. */
  lemma CutAtLast(p: Text)
    requires p != [] && '/' in p && AllNamed(Comps(p))
    ensures var k := LastSlash(p); Comps(p) == Comps(p[..k]) + if LastComp(p) == [] then [] else [LastComp(p)]
  {
    hide Comps, CompsFrom, CompEnd, NameOf;
    var k := LastSlash(p);
    var t := p[k + 1..];
    assert Joins(p, p[..k], t);
    CompsWhole(p, p[..k], t);
    assert '/' !in t;
    if t == [] {
      NoCompsAtAll();
    } else {
      OneComp(t);
      if |t| > LFN_MAX_CHARS {
        assert Comps(t)[0] == Comps(p)[|Comps(p[..k])|];
        ShortLength(Comps(t)[0]);
      }
    }
  }

  lemma ShortLength(s: Text)
    requires NameOf(s).Some?
    ensures 1 <= |s| < COMPONENT_MAX
  {
    ShortParts(s);
  }

  /** Only slashes: no components, and nothing but slashes has none. */
  lemma RootComps(p: Text)
    ensures Comps(p) == [] <==> forall i :: 0 <= i < |p| ==> p[i] == '/'
  {
    var j := PathUtil.SkipSlashes(p, 0);
  }

  /** For paths of 8.3 names, the parent and the last component are the right ones exactly for usual paths. */
  lemma SplitsRightExactlyWhen(p: Text)
    requires p != [] && Comps(p) != [] && AllNamed(Comps(p))
    ensures SplitsRight(p) <==> Usual(p)
  {
    hide NameOf, CompsFrom;
    var comps, k := Comps(p), LastSlash(p);
    ShortLength(comps[|comps| - 1]);
    RootComps(p[..k]);
    if '/' in p {
      CutAtLast(p);
      assert LastComp(p) == [] <==> p[|p| - 1] == '/';
    } else {
      SlashlessComp(p);
    }
  }

  lemma SlashlessComp(p: Text)
    requires p != [] && '/' !in p && AllNamed(Comps(p))
    ensures !SplitsRight(p)
  {
    OneComp(p);
    if |p| > LFN_MAX_CHARS {
      ShortLength(Comps(p)[0]);
    }
  }

  /** On a usual path of 8.3 names, the parent and the last name are those of the list of slot names. */
  lemma UsualParent(g: Geo, v: Vol, p: Text)
    requires Shape(g, v) && p != [] && Comps(p) != [] && AllNamed(Comps(p)) && Usual(p)
    ensures TextLookup(g, v, p) == FatView.Resolve(g, v, NamesOf(Comps(p)))
    ensures ParentLookup(g, v, p) == ParentOf(g, v, NamesOf(Comps(p)))
    ensures NameOf(LastComp(p)) == Some(Leaf(NamesOf(Comps(p))))
  {
    hide Comps, NameOf, TextFrom, ResolveFrom, Entry, Usual;
    var comps, k := Comps(p), LastSlash(p);
    var init := comps[..|comps| - 1];
    SplitsRightExactlyWhen(p);
    assert NamesOf(init) == NamesOf(comps)[..|comps| - 1];
    TextIsPath(g, v, g.rootCluster, comps);
    TextIsPath(g, v, g.rootCluster, init);
    ShortLength(LastComp(p));
  }

  /**
   Every path without a slash loses its first character: what is looked up whole is given another slot, in the
   root, by the calls that look for its parent.
   */
  lemma SlashlessLosesFirst(g: Geo, v: Vol, p: Text)
    requires Shape(g, v) && p != [] && '/' !in p && AllNamed(Comps(p))
    ensures Comps(p) == [p] && LastComp(p) == p[1..]
    ensures ParentLookup(g, v, p) == if |p| == 1 then NoDir(NotFound) else Dir(g.rootCluster)
    ensures SlotName(p[1..]) != SlotName(p)
  {
    hide Comps, CompEnd, TextLookup, NameOf, SlotName;
    OneComp(p);
    if |p| > LFN_MAX_CHARS {
      ShortLength(Comps(p)[0]);
    }
    assert Comps(p)[0] == p;
    ShortLength(p);
    NamedIsShort(p);
    TailSlot(p);
  }

  lemma NamedIsShort(s: Text)
    requires NameOf(s).Some?
    ensures IsShort(s) && NameOf(s).value == Code(SlotName(s))
  {
  }

  lemma NothingThere(g: Geo, v: Vol, p: Text)
    requires Shape(g, v) && Comps(p) == []
    ensures TextLookup(g, v, p) == Miss(NotFound)
  {
  }

  /** A path in the root with more than two slashes in front resolves, but has no parent. */
  lemma ManySlashesHaveNoParent(g: Geo, v: Vol)
    requires Shape(g, v)
    ensures Comps("///README") == ["README"]
    ensures ParentLookup(g, v, "///README") == NoDir(NotFound)
  {
    hide Comps, CompEnd, TextLookup;
    var p: Text := "///README";
    LastSlashIs(p, 2);
    CompsWhole(p, "//", "README");
    OneComp("README");
    RootComps("//");
    RootComps(p[..2]);
    NothingThere(g, v, p[..2]);
  }

  // ----- canonical paths -----

  lemma NamesAreComps(p: Text, i: nat)
    requires i <= |p| && (i == |p| || p[i] == '/')
    requires forall k :: 0 <= k < |PathUtil.Names(p, i)| ==> |PathUtil.Names(p, i)[k]| <= LFN_MAX_CHARS
    ensures CompsFrom(p, i) == PathUtil.Names(p, i)
    decreases |p| - i
  {
    var j := PathUtil.SkipSlashes(p, i);
    if i < |p| && j < |p| {
      var e, names := PathUtil.NameEnd(p, j), PathUtil.Names(p, i);
      var rest := PathUtil.Names(p, e);
      assert names == [p[j..e]] + rest;
      assert |names[0]| == e - j;
      forall k | 0 <= k < |rest| ensures |rest[k]| <= LFN_MAX_CHARS { assert rest[k] == names[k + 1]; }
      NamesAreComps(p, e);
    }
  }

  lemma OneShown(names: seq<string>)
    requires |names| == 1 && PathUtil.Clean(names[0])
    ensures var p := PathUtil.Shown(names); |p| > 0 && p[0] == '/' && forall i :: 0 < i < |p| ==> p[i] != '/'
  {
    hide PathUtil.Clean;
    PathUtil.RenderLast(names, 0);
    PathUtil.CleanFacts(names[0]);
    assert names[..1] == names && names[..0] == [];
    assert PathUtil.Render([]) == "" && PathUtil.Shown(names) == PathUtil.Render(names) == "/" + names[0];
  }

  /** The canonicalizer's results, other than the root, are usual paths whose components are their names. */
  lemma CanonicalIsUsual(cwd: string, input: string, size: nat, p: Text)
    requires 2 <= size <= PARENT_MAX && input != "" && p == PathUtil.Canonical(cwd, input, size) && p != "/"
    ensures p != [] && Usual(p) && Comps(p) == PathUtil.Names(p, 0)
  {
    hide PathUtil.Canonical, PathUtil.Names, CompsFrom, CompEnd;
    PathUtil.CanonicalIsClean(cwd, input, size);
    var names := PathUtil.Names(p, 0);
    forall k | 0 <= k < |names| ensures |names[k]| <= LFN_MAX_CHARS {
      assert PathUtil.Clean(names[k]);
    }
    NamesAreComps(p, 0);
    assert '/' in p;
    if |names| == 1 {
      OneShown(names);
      assert PathUtil.Clean(names[0]);
      LastSlashIs(p, 0);
    }
  }
}
