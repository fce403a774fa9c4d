/** Canonical absolute paths, built in a buffer that names are pushed to and popped from. */
module PathUtil {
  import opened Basics

  const TMP_MAX: nat := 1024
  const COMP_MAX: nat := 64

  // ----- reading a path -----

  /** A C string copied into a buffer of `size` characters: what does not fit is cut off. */
  function Cut(s: string, size: nat): string
    requires size > 0
  {
    if |s| < size then s else s[..size - 1]
  }

  /** The path as an absolute one, from the working directory. */
  function Joined(cwd: string, input: string): string
    requires input != ""
  {
    if input[0] == '/' then input else if cwd == "/" then "/" + input else cwd + "/" + input
  }

  function SkipSlashes(s: string, i: nat): (j: nat)
    requires i <= |s|
    ensures i <= j <= |s| && (j < |s| ==> s[j] != '/') && forall k :: i <= k < j ==> s[k] == '/'
    decreases |s| - i
  {
    if i < |s| && s[i] == '/' then SkipSlashes(s, i + 1) else i
  }

  function NameEnd(s: string, i: nat): (j: nat)
    requires i <= |s|
    ensures i <= j <= |s| && (j < |s| ==> s[j] == '/') && forall k :: i <= k < j ==> s[k] != '/'
    decreases |s| - i
  {
    if i < |s| && s[i] != '/' then NameEnd(s, i + 1) else i
  }

  /** The names of a path, from a slash at `i` on. */
  function Names(s: string, i: nat): seq<string>
    requires i <= |s|
    decreases |s| - i
  {
    if i == |s| || s[i] != '/' then []
    else
      var j := SkipSlashes(s, i);
      if j == |s| then [] else [s[j..NameEnd(s, j)]] + Names(s, NameEnd(s, j))
  }

  // ----- the meaning of a path -----

  /** "." stays, ".." goes up, and every other name goes down. */
  function Enter(stack: seq<string>, name: string): seq<string> {
    if name == "." then stack
    else if name == ".." then (if stack == [] then [] else stack[..|stack| - 1])
    else stack + [name]
  }

  function Resolve(stack: seq<string>, names: seq<string>): seq<string>
    decreases |names|
  {
    if names == [] then stack else Resolve(Enter(stack, names[0]), names[1..])
  }

  function Render(stack: seq<string>): string {
    if stack == [] then "" else Render(stack[..|stack| - 1]) + "/" + stack[|stack| - 1]
  }

  /** The root is a slash alone. */
  function Shown(stack: seq<string>): string {
    if stack == [] then "/" else Render(stack)
  }

  // ----- what the code computes -----

  /** As Enter, with names cut to 63 characters, and a name dropped that the buffer cannot hold. */
  function Visit(stack: seq<string>, name: string, cap: nat): seq<string> {
    var cut := Cut(name, COMP_MAX);
    if cut == "." || cut == ".." then Enter(stack, cut)
    else if |Render(stack)| + 1 + |cut| < cap then stack + [cut]
    else stack
  }

  function Walk(s: string, i: nat, stack: seq<string>, cap: nat): seq<string>
    requires i <= |s|
    decreases |s| - i
  {
    if i == |s| || s[i] != '/' then stack
    else
      var j := SkipSlashes(s, i);
      if j == |s| then stack else Walk(s, NameEnd(s, j), Visit(stack, s[j..NameEnd(s, j)], cap), cap)
  }

  function Canonical(cwd: string, input: string, size: nat): string
    requires size > 0
  {
    if input == "" then Cut(cwd, size)
    else
      var cap := if size < TMP_MAX then size else TMP_MAX;
      Cut(Shown(Walk(Cut(Joined(cwd, input), TMP_MAX), 0, [], cap)), size)
  }

  // ----- clean stacks -----

  predicate Clean(name: string) {
    name != "" && name != "." && name != ".." && |name| < COMP_MAX && forall i :: 0 <= i < |name| ==> name[i] != '/'
  }

  predicate AllClean(stack: seq<string>) { forall i :: 0 <= i < |stack| ==> Clean(stack[i]) }

  lemma VisitClean(stack: seq<string>, s: string, j: nat, cap: nat)
    requires AllClean(stack) && |Render(stack)| < cap && j < |s| && s[j] != '/'
    ensures AllClean(Visit(stack, s[j..NameEnd(s, j)], cap)) && |Render(Visit(stack, s[j..NameEnd(s, j)], cap))| < cap
  {
    var name := s[j..NameEnd(s, j)];
    assert name[0] == s[j];
    forall i | 0 <= i < |name| ensures name[i] != '/' { assert name[i] == s[j + i]; }
    var cut := Cut(name, COMP_MAX);
    if cut != "." && cut != ".." {
      assert (stack + [cut])[..|stack|] == stack;
    }
  }

  /** Whatever the path, the walk ends with clean names that fit the buffer. */
  lemma {:induction false} WalkClean(s: string, i: nat, stack: seq<string>, cap: nat)
    requires i <= |s| && AllClean(stack) && |Render(stack)| < cap
    ensures AllClean(Walk(s, i, stack, cap)) && |Render(Walk(s, i, stack, cap))| < cap
    decreases |s| - i
  {
    hide Visit, Render, Clean;
    if i < |s| && s[i] == '/' {
      var j := SkipSlashes(s, i);
      if j < |s| {
        VisitClean(stack, s, j, cap);
        WalkClean(s, NameEnd(s, j), Visit(stack, s[j..NameEnd(s, j)], cap), cap);
      }
    }
  }

  // ----- the result is canonical -----

  lemma {:induction false} RenderPrefix(stack: seq<string>, m: nat)
    requires m <= |stack|
    ensures Render(stack[..m]) <= Render(stack)
    decreases |stack|
  {
    if m < |stack| {
      RenderPrefix(stack[..|stack| - 1], m);
      assert stack[..|stack| - 1][..m] == stack[..m];
    } else {
      assert stack[..m] == stack;
    }
  }

  lemma RenderLast(stack: seq<string>, m: nat)
    requires m < |stack|
    ensures Render(stack[..m + 1]) == Render(stack[..m]) + "/" + stack[m]
  {
    assert stack[..m + 1][..m] == stack[..m];
  }

  lemma PrefixAt(s: string, pre: string, name: string)
    requires pre + "/" + name <= s
    ensures |pre| + 1 + |name| <= |s| && s[|pre|] == '/'
    ensures forall i :: |pre| + 1 <= i < |pre| + 1 + |name| ==> s[i] == name[i - |pre| - 1]
  {
    var upto := pre + "/" + name;
    assert upto[|pre|] == '/';
    assert forall i :: 0 <= i < |upto| ==> s[i] == upto[i];
  }

  lemma CleanFacts(name: string)
    requires Clean(name)
    ensures name != "" && forall i :: 0 <= i < |name| ==> name[i] != '/'
  {
  }

  lemma OneSlash(s: string, p: nat)
    requires p + 1 < |s| && s[p] == '/' && s[p + 1] != '/'
    ensures SkipSlashes(s, p) == p + 1
  {
  }

  lemma SliceIs(s: string, a: nat, name: string)
    requires a + |name| <= |s| && forall i :: a <= i < a + |name| ==> s[i] == name[i - a]
    ensures s[a..a + |name|] == name
  {
  }

  lemma NameBehindSlash(s: string, p: nat, name: string)
    requires name != "" && p + 1 + |name| <= |s| && s[p] == '/' && forall i :: 0 <= i < |name| ==> name[i] != '/'
    requires forall i :: p + 1 <= i < p + 1 + |name| ==> s[i] == name[i - p - 1]
    requires p + 1 + |name| < |s| ==> s[p + 1 + |name|] == '/'
    ensures SkipSlashes(s, p) == p + 1 < |s|
    ensures NameEnd(s, p + 1) == p + 1 + |name| && s[p + 1..p + 1 + |name|] == name
  {
    hide NameEnd, SkipSlashes;
    assert s[p + 1] == name[0];
    OneSlash(s, p);
    NameEndIs(s, p + 1, p + 1 + |name|);
    SliceIs(s, p + 1, name);
  }

  /** A clean name behind a slash, up to the next slash or the end. */
  lemma NameAt(s: string, pre: string, name: string)
    requires Clean(name) && pre + "/" + name <= s
    requires var n := |pre| + 1 + |name|; n < |s| ==> s[n] == '/'
    ensures var p := |pre|;
      && p + 1 + |name| <= |s| && s[p] == '/' && SkipSlashes(s, p) == p + 1 < |s|
      && NameEnd(s, p + 1) == p + 1 + |name| && s[p + 1..NameEnd(s, p + 1)] == name
  {
    hide Clean, NameEnd, SkipSlashes;
    PrefixAt(s, pre, name);
    CleanFacts(name);
    NameBehindSlash(s, |pre|, name);
  }

  /** Name `m` of a rendered stack, where a walk meets it. */
  lemma RenderedName(stack: seq<string>, m: nat)
    requires AllClean(stack) && m < |stack|
    ensures var s, p := Render(stack), |Render(stack[..m])|;
      && p + 1 + |stack[m]| == |Render(stack[..m + 1])| <= |s| && s[p] == '/' && SkipSlashes(s, p) == p + 1 < |s|
      && NameEnd(s, p + 1) == p + 1 + |stack[m]| && s[p + 1..NameEnd(s, p + 1)] == stack[m]
  {
    hide Render, NameEnd, SkipSlashes, Clean;
    var s, pre := Render(stack), Render(stack[..m]);
    var upto := Render(stack[..m + 1]);
    RenderLast(stack, m);
    RenderPrefix(stack, m + 1);
    if m + 1 < |stack| {
      RenderPrefix(stack, m + 2);
      RenderLast(stack, m + 1);
    } else {
      assert stack[..m + 1] == stack;
    }
    NameAt(s, pre, stack[m]);
  }

  lemma {:induction false} NameEndIs(s: string, i: nat, j: nat)
    requires i <= j <= |s| && (j < |s| ==> s[j] == '/') && forall k :: i <= k < j ==> s[k] != '/'
    ensures NameEnd(s, i) == j
    decreases j - i
  {
    if i < j {
      NameEndIs(s, i + 1, j);
    }
  }

  /** The names of a rendered stack are the stack: none is empty, "." or "..", and no slash trails. */
  lemma {:induction false} RenderedNames(stack: seq<string>, m: nat)
    requires AllClean(stack) && m <= |stack|
    ensures |Render(stack[..m])| <= |Render(stack)|
    ensures Names(Render(stack), |Render(stack[..m])|) == stack[m..]
    decreases |stack| - m
  {
    hide Render, AllClean, NameEnd, SkipSlashes;
    RenderPrefix(stack, m);
    if m < |stack| {
      RenderedName(stack, m);
      RenderedNames(stack, m + 1);
      assert stack[m..] == [stack[m]] + stack[m + 1..];
    } else {
      assert stack[..m] == stack;
    }
  }

  lemma {:induction false} WalkRendered(stack: seq<string>, m: nat, cap: nat)
    requires AllClean(stack) && m <= |stack| && |Render(stack)| < cap
    ensures |Render(stack[..m])| <= |Render(stack)|
    ensures Walk(Render(stack), |Render(stack[..m])|, stack[..m], cap) == stack
    decreases |stack| - m
  {
    hide Render, AllClean, NameEnd, SkipSlashes, Visit;
    RenderPrefix(stack, m);
    if m < |stack| {
      RenderPrefix(stack, m + 1);
      RenderedName(stack, m);
      VisitRendered(stack, m, cap);
      WalkRendered(stack, m + 1, cap);
    } else {
      assert stack[..m] == stack;
    }
  }

  lemma VisitRendered(stack: seq<string>, m: nat, cap: nat)
    requires AllClean(stack) && m < |stack| && |Render(stack[..m + 1])| < cap
    ensures Visit(stack[..m], stack[m], cap) == stack[..m + 1]
  {
    assert Clean(stack[m]);
    assert stack[..m + 1][..m] == stack[..m];
    assert stack[..m + 1] == stack[..m] + [stack[m]];
  }

  /** A non-empty input's result is the rendering of clean names that fit. */
  lemma CanonicalShape(cwd: string, input: string, size: nat) returns (stack: seq<string>)
    requires size >= 2 && input != ""
    ensures AllClean(stack) && |Render(stack)| < size && |Render(stack)| < TMP_MAX
    ensures Canonical(cwd, input, size) == Shown(stack)
  {
    var cap := if size < TMP_MAX then size else TMP_MAX;
    var s := Cut(Joined(cwd, input), TMP_MAX);
    stack := Walk(s, 0, [], cap);
    WalkClean(s, 0, [], cap);
  }

  /**
   The result of a non-empty input, in a buffer of at least two characters: it begins with a slash, its
   names are neither empty nor "." nor "..", and only the root ends with a slash.
   */
  lemma CanonicalIsClean(cwd: string, input: string, size: nat)
    requires size >= 2 && input != ""
    ensures var r := Canonical(cwd, input, size);
      && 0 < |r| < size && r[0] == '/' && AllClean(Names(r, 0))
      && r == Shown(Names(r, 0)) && (r != "/" ==> r[|r| - 1] != '/')
  {
    var stack := CanonicalShape(cwd, input, size);
    if stack != [] {
      RenderedNames(stack, 0);
      RenderedName(stack, 0);
      assert stack[0..] == stack && stack[..0] == [];
      var last := stack[|stack| - 1];
      assert Clean(last) && Render(stack)[|Render(stack)| - 1] == last[|last| - 1];
    } else {
      assert SkipSlashes("/", 0) == 1;
    }
  }

  /** Canonicalizing a result again, from anywhere, changes nothing. */
  lemma CanonicalIsFixed(cwd: string, input: string, cwd': string, size: nat)
    requires size >= 2 && input != ""
    ensures var r := Canonical(cwd, input, size); Canonical(cwd', r, size) == r
  {
    var stack := CanonicalShape(cwd, input, size);
    var r := Shown(stack);
    var cap := if size < TMP_MAX then size else TMP_MAX;
    if stack == [] {
      assert SkipSlashes("/", 0) == 1;
      assert Walk("/", 0, [], cap) == [];
    } else {
      RenderedName(stack, 0);
      assert stack[..0] == [];
      WalkRendered(stack, 0, cap);
    }
  }

  // ----- the result is what the path means -----

  /** No name is too long, and what the path means at each of its names fits the buffer. */
  predicate Roomy(stack: seq<string>, names: seq<string>, cap: nat)
    decreases |names|
  {
    names == []
    || (&& |names[0]| < COMP_MAX
        && (names[0] != "." && names[0] != ".." ==> |Render(stack)| + 1 + |names[0]| < cap)
        && Roomy(Enter(stack, names[0]), names[1..], cap))
  }

  lemma {:induction false} WalkResolves(s: string, i: nat, stack: seq<string>, cap: nat)
    requires i <= |s| && Roomy(stack, Names(s, i), cap)
    ensures Walk(s, i, stack, cap) == Resolve(stack, Names(s, i))
    decreases |s| - i
  {
    if i < |s| && s[i] == '/' {
      var j := SkipSlashes(s, i);
      if j < |s| {
        var name, rest := s[j..NameEnd(s, j)], Names(s, NameEnd(s, j));
        assert Names(s, i)[0] == name && Names(s, i)[1..] == rest;
        assert Visit(stack, name, cap) == Enter(stack, name);
        WalkResolves(s, NameEnd(s, j), Enter(stack, name), cap);
      }
    }
  }

  function TotalLength(names: seq<string>): nat {
    if names == [] then 0 else 1 + |names[0]| + TotalLength(names[1..])
  }

  lemma EnterLength(stack: seq<string>, name: string)
    ensures |Render(Enter(stack, name))| <= |Render(stack)| + 1 + |name|
  {
    if name != "." && name != ".." {
      assert (stack + [name])[..|stack|] == stack;
    }
  }

  /** Short names whose lengths add up to less than the buffer's always have room. */
  lemma {:induction false} ShortIsRoomy(stack: seq<string>, names: seq<string>, cap: nat)
    requires forall i :: 0 <= i < |names| ==> |names[i]| < COMP_MAX
    requires |Render(stack)| + TotalLength(names) < cap
    ensures Roomy(stack, names, cap)
    decreases |names|
  {
    if names != [] {
      EnterLength(stack, names[0]);
      ShortIsRoomy(Enter(stack, names[0]), names[1..], cap);
    }
  }

  lemma {:induction false} NamesLength(s: string, i: nat)
    requires i <= |s|
    ensures TotalLength(Names(s, i)) <= |s| - i
    decreases |s| - i
  {
    if i < |s| && s[i] == '/' {
      var j := SkipSlashes(s, i);
      if j < |s| {
        NamesLength(s, NameEnd(s, j));
        assert Names(s, i)[1..] == Names(s, NameEnd(s, j));
      }
    }
  }

  predicate ShortNames(names: seq<string>) { forall i :: 0 <= i < |names| ==> |names[i]| < COMP_MAX }

  lemma JoinedResolves(cwd: string, input: string, size: nat)
    requires input != "" && |Joined(cwd, input)| < size && |Joined(cwd, input)| < TMP_MAX && size >= 2
    requires ShortNames(Names(Joined(cwd, input), 0))
    ensures Canonical(cwd, input, size) == Shown(Resolve([], Names(Joined(cwd, input), 0)))
  {
    var s := Joined(cwd, input);
    var cap := if size < TMP_MAX then size else TMP_MAX;
    NamesLength(s, 0);
    ShortIsRoomy([], Names(s, 0), cap);
    WalkResolves(s, 0, [], cap);
    WalkClean(s, 0, [], cap);
  }

  lemma {:induction false} SkipIs(s: string, i: nat, j: nat)
    requires i <= j <= |s| && (j < |s| ==> s[j] != '/') && forall k :: i <= k < j ==> s[k] == '/'
    ensures SkipSlashes(s, i) == j
    decreases j - i
  {
    if i < j {
      SkipIs(s, i + 1, j);
    }
  }

  lemma SameSlice(s: string, t: string, j: nat, k: nat)
    requires j <= k <= |s|
    ensures (s + t)[j..k] == s[j..k]
  {
  }

  lemma NoNames(s: string, i: nat)
    requires i <= |s| && SkipSlashes(s, i) == |s|
    ensures Names(s, i) == []
  {
  }

  lemma FirstName(s: string, i: nat)
    requires i < |s| && s[i] == '/' && SkipSlashes(s, i) < |s|
    ensures var j := SkipSlashes(s, i); Names(s, i) == [s[j..NameEnd(s, j)]] + Names(s, NameEnd(s, j))
  {
  }

  lemma SkipBehind(s: string, t: string, k: nat)
    requires k <= |t|
    ensures SkipSlashes(s + t, |s| + k) == |s| + SkipSlashes(t, k)
  {
    SkipIs(s + t, |s| + k, |s| + SkipSlashes(t, k));
  }

  lemma EndBehind(s: string, t: string, k: nat)
    requires k <= |t|
    ensures NameEnd(s + t, |s| + k) == |s| + NameEnd(t, k)
  {
    NameEndIs(s + t, |s| + k, |s| + NameEnd(t, k));
  }

  lemma {:induction false} NamesBehind(s: string, t: string, k: nat)
    requires k <= |t| && (k < |t| ==> t[k] == '/')
    ensures Names(s + t, |s| + k) == Names(t, k)
    decreases |t| - k
  {
    hide Names, SkipSlashes, NameEnd;
    var j := SkipSlashes(t, k);
    SkipBehind(s, t, k);
    if j == |t| {
      NoNames(t, k);
      NoNames(s + t, |s| + k);
    } else {
      var e := NameEnd(t, j);
      EndBehind(s, t, j);
      SliceBehind(s, t, j, e);
      FirstName(t, k);
      FirstName(s + t, |s| + k);
      NamesBehind(s, t, e);
    }
  }

  lemma SliceBehind(s: string, t: string, j: nat, e: nat)
    requires j <= e <= |t|
    ensures (s + t)[|s| + j..|s| + e] == t[j..e]
  {
  }

  /** A path continued by another one has the names of both, also where the first ends with slashes. */
  lemma {:induction false} NamesJoin(s: string, t: string, i: nat)
    requires i <= |s| && (i < |s| ==> s[i] == '/') && t != "" && t[0] == '/'
    ensures Names(s + t, i) == Names(s, i) + Names(t, 0)
    decreases |s| - i
  {
    hide Names;
    var p := s + t;
    NamesBehind(s, t, 0);
    if i == |s| {
      assert Names(s, i) == [] by { NoNames(s, i); }
    } else {
      var j := SkipSlashes(s, i);
      if j == |s| {
        var m := SkipSlashes(p, |s|);
        SkipIs(p, i, m);
        SameNames(p, i, |s|);
        NoNames(s, i);
      } else {
        var e := NameEnd(s, j);
        SkipIs(p, i, j);
        NameEndIs(p, j, e);
        SameSlice(s, t, j, e);
        FirstName(p, i);
        FirstName(s, i);
        NamesJoin(s, t, e);
        assert [s[j..e]] + (Names(s, e) + Names(t, 0)) == [s[j..e]] + Names(s, e) + Names(t, 0);
      }
    }
  }

  lemma SameNames(s: string, i: nat, j: nat)
    requires i < |s| && j < |s| && s[i] == s[j] == '/' && SkipSlashes(s, i) == SkipSlashes(s, j)
    ensures Names(s, i) == Names(s, j)
  {
  }

  lemma {:induction false} ResolveJoin(stack: seq<string>, a: seq<string>, b: seq<string>)
    ensures Resolve(stack, a + b) == Resolve(Resolve(stack, a), b)
    decreases |a|
  {
    if a == [] {
      assert a + b == b;
    } else {
      assert (a + b)[1..] == a[1..] + b;
      ResolveJoin(Enter(stack, a[0]), a[1..], b);
    }
  }

  /**
   When the buffer can hold the whole path and no name is too long, the result is what the path means: an absolute
   one from the root, whatever the working directory, and a relative one from where the working directory leads.
   */
  lemma CanonicalResolves(cwd: string, input: string, size: nat)
    requires size >= 2 && input != ""
    requires var n := if input[0] == '/' then |input| else (if cwd == "/" then 1 else |cwd| + 1) + |input|;
      n < size && n < TMP_MAX
    requires if input[0] == '/' then ShortNames(Names(input, 0))
      else ShortNames(Names(cwd, 0)) && ShortNames(Names("/" + input, 0))
    ensures Canonical(cwd, input, size)
         == if input[0] == '/' then Shown(Resolve([], Names(input, 0)))
            else if cwd == "" || cwd[0] == '/' then Shown(Resolve(Resolve([], Names(cwd, 0)), Names("/" + input, 0)))
            else "/"
  {
    hide Canonical, Resolve, Render, Joined, Names;
    JoinedNames(cwd, input);
    ResolveNone([]);
    if input[0] != '/' {
      ResolveJoin([], Names(cwd, 0), Names("/" + input, 0));
    }
    JoinedResolves(cwd, input, size);
  }

  lemma JoinedNames(cwd: string, input: string)
    requires input != ""
    ensures Joined(cwd, input)
         == if input[0] == '/' then input else if cwd == "/" then "/" + input else cwd + "/" + input
    ensures Names(Joined(cwd, input), 0) ==
      if input[0] == '/' then Names(input, 0)
      else if cwd == "" || cwd[0] == '/' then Names(cwd, 0) + Names("/" + input, 0)
      else []
  {
    hide Names;
    if input[0] != '/' {
      var s := cwd + "/" + input;
      assert s == cwd + ("/" + input);
      if cwd == "/" {
        SkipIs(cwd, 0, 1);
        NoNames(cwd, 0);
        assert [] + Names("/" + input, 0) == Names("/" + input, 0);
      } else if cwd == "" || cwd[0] == '/' {
        NamesJoin(cwd, "/" + input, 0);
      } else {
        assert s[0] == cwd[0];
        NoSlash(s);
      }
    }
  }

  lemma NoSlash(s: string)
    requires s != "" && s[0] != '/'
    ensures Names(s, 0) == []
  {
  }

  lemma ResolveNone(stack: seq<string>)
    ensures Resolve(stack, []) == stack
  {
  }

  lemma OneName(name: string)
    requires name != "" && forall i :: 0 <= i < |name| ==> name[i] != '/'
    ensures Names("/" + name, 0) == [name]
  {
    hide Names;
    var s := "/" + name;
    SkipIs(s, 0, 1);
    NameEndIs(s, 1, |s|);
    FirstName(s, 0);
    NoNames(s, |s|);
    assert s[1..|s|] == name;
  }

  lemma ShownBelow(stack: seq<string>, name: string)
    requires AllClean(stack)
    ensures Shown(stack + [name]) == if Shown(stack) == "/" then "/" + name else Shown(stack) + "/" + name
  {
    var deeper := stack + [name];
    assert deeper[..|stack|] == stack && deeper[..|stack| + 1] == deeper;
    RenderLast(deeper, |stack|);
    if stack == [] {
      assert Render(stack) == "" && "" + "/" + name == "/" + name;
    } else {
      var last := stack[|stack| - 1];
      assert Clean(last) && Render(stack)[|Render(stack)| - 1] == last[|last| - 1] != '/';
    }
  }

  lemma ShownNames(stack: seq<string>)
    requires AllClean(stack)
    ensures Names(Shown(stack), 0) == stack && Shown(stack) != "" && Shown(stack)[0] == '/'
  {
    hide Names, AllClean, Clean;
    if stack == [] {
      SkipIs("/", 0, 1);
      NoNames("/", 0);
    } else {
      RenderedName(stack, 0);
      RenderedNames(stack, 0);
      assert stack[..0] == [];
    }
  }

  /** Clean names, entered one by one from the root, are a stack of themselves. */
  lemma {:induction false} CleanEnters(stack: seq<string>, m: nat)
    requires AllClean(stack) && m <= |stack|
    ensures Resolve(stack[..m], stack[m..]) == stack
    decreases |stack| - m
  {
    if m < |stack| {
      assert Clean(stack[m]);
      assert stack[m..][1..] == stack[m + 1..];
      assert stack[..m] + [stack[m]] == stack[..m + 1];
      CleanEnters(stack, m + 1);
    }
  }

  lemma CleanFromRoot(stack: seq<string>)
    requires AllClean(stack)
    ensures Resolve([], stack) == stack && ShortNames(stack)
  {
    assert stack[..0] == [] && stack[0..] == stack;
    CleanEnters(stack, 0);
    assert forall i :: 0 <= i < |stack| ==> Clean(stack[i]);
  }

  lemma ResolveOne(stack: seq<string>, name: string)
    ensures Resolve(stack, [name]) == if name == "." then stack
      else if name == ".." then (if stack == [] then [] else stack[..|stack| - 1]) else stack + [name]
  {
    assert [name][1..] == [];
  }

  lemma CleanBelow(stack: seq<string>, name: string)
    requires AllClean(stack) && Clean(name)
    ensures AllClean(stack + [name])
  {
  }

  /** From a canonical directory a name goes down, "." stays, and ".." goes back up, but not above the root. */
  lemma MovesAbout(dir: string, name: string, size: nat)
    requires AllClean(Names(dir, 0)) && dir == Shown(Names(dir, 0)) && Clean(name)
    requires |dir| + 1 + |name| + 3 < size && |dir| + 1 + |name| + 3 < TMP_MAX
    ensures var below := if dir == "/" then "/" + name else dir + "/" + name;
      && Canonical(dir, name, size) == below
      && Canonical(below, "..", size) == dir
    ensures Canonical(dir, ".", size) == dir
    ensures Canonical("/", "..", size) == "/"
  {
    hide Canonical, Names, Render, AllClean, Resolve, Shown;
    var stack := Names(dir, 0);
    var deeper := stack + [name];
    CleanBelow(stack, name);
    CleanFacts(name);
    OneName(name);
    OneName(".");
    OneName("..");
    ShownBelow(stack, name);
    ShownNames(stack);
    ShownNames(deeper);
    CleanFromRoot(stack);
    CleanFromRoot(deeper);
    ResolveOne(stack, name);
    ResolveOne(stack, ".");
    ResolveOne(deeper, "..");
    assert deeper[..|stack|] == stack;
    CanonicalResolves(dir, name, size);
    CanonicalResolves(dir, ".", size);
    CanonicalResolves(Shown(deeper), "..", size);
    StaysAtRoot(size);
  }

  lemma StaysAtRoot(size: nat)
    requires size > 3
    ensures Canonical("/", "..", size) == "/"
  {
    hide Canonical, Names;
    OneName("..");
    SkipIs("/", 0, 1);
    NoNames("/", 0);
    ResolveNone([]);
    ResolveOne([], "..");
    CanonicalResolves("/", "..", size);
  }

  // ----- what exceeds a limit -----

  function Visits(stack: seq<string>, names: seq<string>, cap: nat): seq<string>
    decreases |names|
  {
    if names == [] then stack else Visits(Visit(stack, names[0], cap), names[1..], cap)
  }

  lemma {:induction false} WalkVisits(s: string, i: nat, stack: seq<string>, cap: nat)
    requires i <= |s|
    ensures Walk(s, i, stack, cap) == Visits(stack, Names(s, i), cap)
    decreases |s| - i
  {
    hide Visit, NameEnd, SkipSlashes;
    if i < |s| && s[i] == '/' {
      var j := SkipSlashes(s, i);
      if j < |s| {
        assert Names(s, i)[1..] == Names(s, NameEnd(s, j));
        WalkVisits(s, NameEnd(s, j), Visit(stack, s[j..NameEnd(s, j)], cap), cap);
      }
    }
  }

  /** Names that fit are entered; the last one may be any. */
  lemma {:induction false} VisitsClean(stack: seq<string>, m: nat, name: string, cap: nat)
    requires AllClean(stack) && m <= |stack| && |Render(stack)| < cap
    ensures Visits(stack[..m], stack[m..] + [name], cap) == Visit(stack, name, cap)
    decreases |stack| - m
  {
    hide Visit, Render, AllClean;
    if m < |stack| {
      RenderPrefix(stack, m + 1);
      VisitRendered(stack, m, cap);
      assert (stack[m..] + [name])[1..] == stack[m + 1..] + [name];
      VisitsClean(stack, m + 1, name, cap);
    } else {
      assert stack[m..] + [name] == [name] && stack[..m] == stack;
    }
  }

  lemma VisitsFromRoot(dir: string, name: string, size: nat) returns (stack: seq<string>)
    requires AllClean(Names(dir, 0)) && dir == Shown(Names(dir, 0)) && |dir| < size
    requires name != "" && forall i :: 0 <= i < |name| ==> name[i] != '/'
    requires |dir| + 1 + |name| < TMP_MAX
    ensures AllClean(stack) && dir == Shown(stack) && |Render(stack)| <= |dir| && (stack == [] ==> |Render(stack)| == 0)
    ensures Canonical(dir, name, size) == Cut(Shown(Visit(stack, name, if size < TMP_MAX then size else TMP_MAX)), size)
  {
    hide Visit, Render, AllClean, Names;
    var cap := if size < TMP_MAX then size else TMP_MAX;
    stack := Names(dir, 0);
    var s := Joined(dir, name);
    OneName(name);
    if dir == "/" {
      SkipIs("/", 0, 1);
      NoNames("/", 0);
    } else {
      assert s == dir + ("/" + name);
      ShownNames(stack);
      NamesJoin(dir, "/" + name, 0);
    }
    assert Names(s, 0) == stack + [name];
    EmptyStack();
    ShownIs(stack);
    WalkVisits(s, 0, [], cap);
    assert stack[..0] == [] && stack[0..] == stack;
    VisitsClean(stack, 0, name, cap);
  }

  /**
   Below a canonical directory, a name of more than 63 characters is cut to 63, and a name that the buffer
   has no room for behind the directory and a slash is left out, and nothing else.
   */
  lemma LimitsMean(dir: string, name: string, size: nat)
    requires AllClean(Names(dir, 0)) && dir == Shown(Names(dir, 0)) && 2 <= size && |dir| < size
    requires name != "" && name != "." && name != ".." && forall i :: 0 <= i < |name| ==> name[i] != '/'
    requires |dir| + 1 + |name| < TMP_MAX
    ensures var short := if |name| <= 63 then name else name[..63];
      var below := if dir == "/" then "/" + short else dir + "/" + short;
      Canonical(dir, name, size) == if |below| < size then below else dir
  {
    hide Names, AllClean, Canonical, Visit, Render, Shown;
    var cap := if size < TMP_MAX then size else TMP_MAX;
    var short := if |name| <= 63 then name else name[..63];
    var stack := VisitsFromRoot(dir, name, size);
    VisitShort(stack, name, cap);
    ShownBelow(stack, short);
    ShownLength(stack);
    RootIsEmpty(stack);
  }

  lemma RootIsEmpty(stack: seq<string>)
    requires AllClean(stack)
    ensures Shown(stack) == "/" ==> Render(stack) == ""
  {
    if stack != [] {
      var last := stack[|stack| - 1];
      assert Clean(last) && Render(stack)[|Render(stack)| - 1] == last[|last| - 1] != '/';
    }
  }

  lemma VisitShort(stack: seq<string>, name: string, cap: nat)
    requires name != "." && name != ".."
    ensures var short := if |name| <= 63 then name else name[..63];
      Visit(stack, name, cap) == if |Render(stack)| + 1 + |short| < cap then stack + [short] else stack
  {
  }

  lemma ShownLength(stack: seq<string>)
    ensures |Shown(stack)| == if Render(stack) == "" then 1 else |Render(stack)|
    ensures Render(stack) == "" ==> Shown(stack) == "/"
  {
  }

  // ----- the code -----

  lemma CutNothing(size: nat)
    requires size > 0
    ensures Cut([], size) == []
  {
  }

  lemma CutMore(s: string, c: char, size: nat)
    requires size > 0
    ensures |Cut(s, size)| < size
    ensures Cut(s + [c], size) == if |Cut(s, size)| + 1 < size then Cut(s, size) + [c] else Cut(s, size)
  {
    if |s| >= size {
      assert (s + [c])[..size - 1] == s[..size - 1];
    } else if |s| + 1 == size {
      assert (s + [c])[..size - 1] == s;
    }
  }

  /** Reads the name at `p0` into a buffer of 64 characters and moves on to its end. */
  method ReadName(tmp: string, p0: nat, comp: array<char>) returns (p: nat, n: nat)
    requires p0 <= |tmp| && comp.Length == COMP_MAX
    modifies comp
    ensures p == NameEnd(tmp, p0) && n < COMP_MAX && comp[..n] == Cut(tmp[p0..p], COMP_MAX)
  {
    hide NameEnd, Cut;
    p, n := p0, 0;
    CutNothing(COMP_MAX);
    assert tmp[p0..p0] == [] && comp[..0] == [];
    while p < |tmp| && tmp[p] != '/'
      invariant p0 <= p <= |tmp| && forall k :: p0 <= k < p ==> tmp[k] != '/'
      invariant n < COMP_MAX && comp[..n] == Cut(tmp[p0..p], COMP_MAX)
    {
      ghost var was := comp[..n];
      CutMore(tmp[p0..p], tmp[p], COMP_MAX);
      assert tmp[p0..p + 1] == tmp[p0..p] + [tmp[p]];
      if n + 1 < COMP_MAX {
        comp[n] := tmp[p];
        n := n + 1;
        assert comp[..n] == was + [tmp[p]];
      }
      p := p + 1;
    }
    NameEndIs(tmp, p0, p);
  }

  /** Cuts the buffer at its last slash, which removes the last name. */
  method PopName(canon: array<char>, len: nat, ghost stack: seq<string>) returns (n: nat)
    requires len <= canon.Length && canon[..len] == Render(stack) && AllClean(stack)
    ensures n <= len && canon[..n] == Render(Enter(stack, ".."))
  {
    LastSlash(stack);
    n := len;
    while n > 0 && canon[n - 1] != '/'
      invariant n <= len
      invariant stack != [] ==> |Render(stack[..|stack| - 1])| < n
      invariant stack == [] ==> n == 0
    {
      assert canon[..len][n - 1] == canon[n - 1];
      n := n - 1;
    }
    if n > 0 {
      assert canon[..len][n - 1] == canon[n - 1];
      n := n - 1;
    }
    assert canon[..n] == canon[..len][..n];
  }

  /** Behind the last slash of a rendered stack comes the last name. */
  lemma LastSlash(stack: seq<string>)
    requires AllClean(stack)
    ensures stack != [] ==>
      && var r, p := Render(stack), |Render(stack[..|stack| - 1])|;
      p < |r| && r[p] == '/' && r[..p] == Render(stack[..|stack| - 1]) && forall k :: p < k < |r| ==> r[k] != '/'
  {
    if stack != [] {
      var last, p := stack[|stack| - 1], |Render(stack[..|stack| - 1])|;
      assert Clean(last);
      assert forall k :: p < k < |Render(stack)| ==> Render(stack)[k] == last[k - p - 1];
    }
  }

  /** Adds a slash and a name, if they fit. */
  method PushName(canon: array<char>, len: nat, comp: array<char>, n: nat, cap: nat, ghost stack: seq<string>)
    returns (m: nat)
    requires len < cap <= canon.Length && canon[..len] == Render(stack) && n <= comp.Length && canon != comp
    modifies canon
    ensures m < cap && canon[..m] == Render(if len + 1 + n < cap then stack + [comp[..n]] else stack)
  {
    m := len;
    if len + 1 + n < cap {
      canon[m] := '/';
      m := m + 1;
      assert canon[..m] == Render(stack) + "/";
      for i := 0 to n
        invariant m == len + 1 + i && canon[..m] == Render(stack) + "/" + comp[..i]
      {
        canon[m] := comp[i];
        m := m + 1;
        assert canon[..m] == Render(stack) + "/" + comp[..i] + [comp[i]];
      }
      assert (stack + [comp[..n]])[..|stack|] == stack;
    }
  }

  /** One name of the path takes effect on the buffer. */
  method VisitName(canon: array<char>, len: nat, comp: array<char>, n: nat, cap: nat, ghost stack: seq<string>,
                   ghost name: string)
    returns (m: nat)
    requires len < cap <= canon.Length && canon[..len] == Render(stack) && AllClean(stack) && canon != comp
    requires n <= comp.Length && comp[..n] == Cut(name, COMP_MAX)
    modifies canon
    ensures m < cap && canon[..m] == Render(Visit(stack, name, cap))
  {
    hide Render;
    if comp[..n] == "." {
      m := len;
    } else if comp[..n] == ".." {
      m := PopName(canon, len, stack);
    } else {
      m := PushName(canon, len, comp, n, cap, stack);
    }
  }

  method CopyOut(s: string, out: array<char>) returns (n: nat)
    requires out.Length > 0
    modifies out
    ensures n < out.Length && out[..n] == Cut(s, out.Length) && out[n] == '\0'
  {
    n := if |s| < out.Length then |s| else out.Length - 1;
    for i := 0 to n
      invariant out[..i] == s[..i]
    {
      out[i] := s[i];
    }
    out[n] := '\0';
    assert out[..n] == s[..n];
  }

  /** Builds the canonical path in a local buffer and copies it out. */
  method PathCanonicalize(cwd: string, input: string, out: array<char>) returns (n: nat)
    requires out.Length > 0
    modifies out
    ensures n < out.Length && out[..n] == Canonical(cwd, input, out.Length) && out[n] == '\0'
    ensures input == "" ==> out[..n] == if |cwd| < out.Length then cwd else cwd[..out.Length - 1]
  {
    hide Visit, Walk, Render, AllClean;
    if input == "" {
      n := CopyOut(cwd, out);
      return;
    }
    var tmp := Cut(Joined(cwd, input), TMP_MAX);
    var cap := if out.Length < TMP_MAX then out.Length else TMP_MAX;
    var canon, comp := new char[TMP_MAX], new char[COMP_MAX];
    var len: nat, p: nat := 0, 0;
    ghost var stack: seq<string> := [];
    EmptyStack();
    while p < |tmp| && tmp[p] == '/'
      invariant p <= |tmp| && len < cap && canon[..len] == Render(stack) && AllClean(stack)
      invariant Walk(tmp, p, stack, cap) == Walk(tmp, 0, [], cap)
      decreases |tmp| - p
    {
      ghost var start := p;
      while p < |tmp| && tmp[p] == '/'
        invariant start <= p <= |tmp| && SkipSlashes(tmp, p) == SkipSlashes(tmp, start)
      {
        p := p + 1;
      }
      WalkOn(tmp, start, stack, cap);
      if p == |tmp| {
        break;
      }
      ghost var at := p;
      var k;
      p, k := ReadName(tmp, p, comp);
      VisitClean(stack, tmp, at, cap);
      len := VisitName(canon, len, comp, k, cap, stack, tmp[at..p]);
      stack := Visit(stack, tmp[at..p], cap);
    }
    WalkEnd(tmp, p, stack, cap);
    ShownIs(stack);
    if len == 0 {
      canon[0] := '/';
      len := 1;
    }
    n := CopyOut(canon[..len], out);
  }

  lemma EmptyStack()
    ensures Render([]) == "" && AllClean([])
  {
  }

  lemma WalkOn(s: string, i: nat, stack: seq<string>, cap: nat)
    requires i < |s| && s[i] == '/'
    ensures i < SkipSlashes(s, i)
    ensures var j := SkipSlashes(s, i);
      Walk(s, i, stack, cap) == if j == |s| then stack
        else Walk(s, NameEnd(s, j), Visit(stack, s[j..NameEnd(s, j)], cap), cap)
  {
  }

  lemma WalkEnd(s: string, i: nat, stack: seq<string>, cap: nat)
    requires i <= |s| && (i == |s| || s[i] != '/')
    ensures Walk(s, i, stack, cap) == stack
  {
  }

  lemma ShownIs(stack: seq<string>)
    ensures Shown(stack) == if Render(stack) == "" then "/" else Render(stack)
  {
  }
}
