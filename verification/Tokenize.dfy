/** Splitting a shell line into arguments within the line's own buffer, and quoting names so that they survive it. */
module Tokenize {

  const MAX_ARGS: nat := 16

  predicate Blank(c: char) { c == ' ' || c == '\t' }

  predicate Quote(c: char) { c == '"' || c == '\'' }

  // ----- tokenizing, as such -----

  function SkipBlanks(s: string, i: nat): (j: nat)
    requires i <= |s|
    ensures i <= j <= |s| && (j < |s| ==> !Blank(s[j]))
    decreases |s| - i
  {
    if i < |s| && Blank(s[i]) then SkipBlanks(s, i + 1) else i
  }

  /** The text up to the closing quote, and the position behind it. */
  function Quoted(s: string, i: nat, q: char): (r: (string, nat))
    requires i <= |s|
    ensures i <= r.1 <= |s| && |r.0| <= r.1 - i
    decreases |s| - i
  {
    if i == |s| then ("", i)
    else if s[i] == q then ("", i + 1)
    else var (t, j) := Quoted(s, i + 1, q); ([s[i]] + t, j)
  }

  /** The rest of a word: quotes are removed, and outside of them a backslash takes the next character as it is. */
  function Word(s: string, i: nat): (r: (string, nat))
    requires i <= |s|
    ensures i <= r.1 <= |s| && |r.0| <= r.1 - i && (r.1 < |s| ==> Blank(s[r.1]))
    decreases |s| - i
  {
    if i == |s| || Blank(s[i]) then ("", i)
    else if Quote(s[i]) then
      var (t, j) := Quoted(s, i + 1, s[i]);
      var (u, k) := Word(s, j);
      (t + u, k)
    else if s[i] == '\\' && i + 1 < |s| then
      var (u, k) := Word(s, i + 2);
      ([s[i + 1]] + u, k)
    else
      var (u, k) := Word(s, i + 1);
      ([s[i]] + u, k)
  }

  /** A word is at least one character long in the line. */
  lemma WordProgress(s: string, i: nat)
    requires i < |s| && !Blank(s[i])
    ensures i < Word(s, i).1
  {
  }

  /** At most `room` arguments of the line from `i` on. */
  function Args(s: string, i: nat, room: nat): seq<string>
    requires i <= |s|
    decreases room
  {
    var j := SkipBlanks(s, i);
    if j == |s| || room == 0 then []
    else [Word(s, j).0] + Args(s, Word(s, j).1, room - 1)
  }

  function Tokens(s: string): seq<string> { Args(s, 0, MAX_ARGS) }

  // ----- tokenizing in place -----

  /** The buffer holds the string `t` at `at`, with its terminator. */
  ghost predicate Holds(buf: seq<char>, at: int, t: string) {
    0 <= at && at + |t| < |buf| && buf[at..at + |t|] == t && buf[at + |t|] == '\0'
  }

  /** The line from `r` on is still as it was, terminator included. */
  ghost predicate Unread(buf: seq<char>, s: string, r: nat) {
    |buf| == |s| + 1 && r <= |s| && buf[|s|] == '\0' && forall k :: r <= k < |s| ==> buf[k] == s[k]
  }

  /** A C string: no terminator before the end. */
  predicate Terminated(s: string) { forall i :: 0 <= i < |s| ==> s[i] != '\0' }

  lemma QuotedOne(s: string, i: nat, q: char)
    requires i <= |s|
    ensures i == |s| ==> Quoted(s, i, q) == ("", i)
    ensures i < |s| && s[i] == q ==> Quoted(s, i, q) == ("", i + 1)
  {
  }

  lemma QuotedOn(s: string, i: nat, q: char, was: string)
    requires i < |s| && s[i] != q
    ensures was + Quoted(s, i, q).0 == was + [s[i]] + Quoted(s, i + 1, q).0
    ensures Quoted(s, i, q).1 == Quoted(s, i + 1, q).1
  {
  }

  /** A cursor that reads a terminator is at the end. */
  lemma Ending(s: string, i: nat, c: char)
    requires Terminated(s) && i <= |s| && (i < |s| ==> c == s[i])
    ensures c == '\0' ==> i == |s|
  {
  }

  /** Copies one character down. */
  method MoveDown(line: array<char>, r: nat, w: nat, ghost s: string)
    requires Unread(line[..], s, r) && w <= r < |s|
    modifies line
    ensures Unread(line[..], s, r + 1) && line[..w + 1] == old(line[..w]) + [s[r]]
  {
    line[w] := line[r];
  }

  /** Copies the text of a quotation down; the cursors end behind both. */
  method CopyQuoted(line: array<char>, r0: nat, w0: nat, q: char, ghost s: string) returns (r: nat, w: nat)
    requires Unread(line[..], s, r0) && w0 < r0 && Terminated(s) && Quote(q)
    modifies line
    ensures r == Quoted(s, r0, q).1 && w <= r && Unread(line[..], s, r)
    ensures line[..w] == old(line[..w0]) + Quoted(s, r0, q).0
  {
    hide Quoted, Terminated;
    r, w := r0, w0;
    QuotedOne(s, r0, q);
    ghost var goal := old(line[..w0]) + Quoted(s, r0, q).0;
    while line[r] != '\0' && line[r] != q
      invariant r0 <= r <= |s| && w < r && Unread(line[..], s, r)
      invariant line[..w] + Quoted(s, r, q).0 == goal && Quoted(s, r, q).1 == Quoted(s, r0, q).1
      decreases |s| - r
    {
      ghost var was := line[..w];
      MoveDown(line, r, w, s);
      r, w := r + 1, w + 1;
      QuotedOn(s, r - 1, q, was);
    }
    Ending(s, r, line[r]);
    QuotedOne(s, r, q);
    if line[r] == q {
      r := r + 1;
    }
    assert line[..w] + "" == line[..w];
  }

  /** Copies a word down, without its quotes and escapes. */
  method CopyWord(line: array<char>, r0: nat, w0: nat, ghost s: string) returns (r: nat, w: nat)
    requires Unread(line[..], s, r0) && w0 <= r0 && Terminated(s)
    modifies line
    ensures r == Word(s, r0).1 && w <= r && Unread(line[..], s, r)
    ensures line[..w] == old(line[..w0]) + Word(s, r0).0
  {
    hide Word, Quoted;
    r, w := r0, w0;
    ghost var goal := old(line[..w0]) + Word(s, r0).0;
    while line[r] != '\0' && !Blank(line[r])
      invariant r0 <= r <= |s| && w <= r && Unread(line[..], s, r)
      invariant line[..w] + Word(s, r).0 == goal && Word(s, r).1 == Word(s, r0).1
      decreases |s| - r
    {
      ghost var was, here := line[..w], r;
      if Quote(line[r]) {
        var q := line[r];
        r, w := CopyQuoted(line, r + 1, w, q, s);
        WordQuoted(s, here, was);
      } else if line[r] == '\\' && line[r + 1] != '\0' {
        r := r + 1;
        MoveDown(line, r, w, s);
        r, w := r + 1, w + 1;
        WordEscaped(s, here, was);
      } else {
        MoveDown(line, r, w, s);
        r, w := r + 1, w + 1;
        WordPlain(s, here, was);
      }
    }
    WordEnds(s, r);
    assert line[..w] + "" == line[..w];
  }

  lemma WordEnds(s: string, i: nat)
    requires i <= |s| && (i < |s| ==> Blank(s[i]))
    ensures Word(s, i) == ("", i)
  {
  }

  lemma WordQuoted(s: string, i: nat, was: string)
    requires i < |s| && Quote(s[i])
    ensures var (t, j) := Quoted(s, i + 1, s[i]);
      was + Word(s, i).0 == was + t + Word(s, j).0 && Word(s, i).1 == Word(s, j).1
  {
    hide Quoted;
    var (t, j) := Quoted(s, i + 1, s[i]);
    Regroup(was, t, Word(s, j).0);
  }

  lemma WordEscaped(s: string, i: nat, was: string)
    requires i + 1 < |s| && s[i] == '\\'
    ensures was + Word(s, i).0 == was + [s[i + 1]] + Word(s, i + 2).0 && Word(s, i).1 == Word(s, i + 2).1
  {
    hide Quoted;
    Regroup(was, [s[i + 1]], Word(s, i + 2).0);
  }

  lemma WordPlain(s: string, i: nat, was: string)
    requires i < |s| && !Blank(s[i]) && !Quote(s[i]) && (s[i] == '\\' ==> i + 1 == |s|)
    ensures was + Word(s, i).0 == was + [s[i]] + Word(s, i + 1).0 && Word(s, i).1 == Word(s, i + 1).1
  {
    hide Quoted;
    Regroup(was, [s[i]], Word(s, i + 1).0);
  }

  lemma {:induction false} SkipTwice(s: string, i: nat)
    requires i <= |s|
    ensures SkipBlanks(s, SkipBlanks(s, i)) == SkipBlanks(s, i)
    decreases |s| - i
  {
    if i < |s| && Blank(s[i]) {
      SkipTwice(s, i + 1);
    }
  }

  lemma ArgsSkip(s: string, i: nat, room: nat)
    requires i <= |s|
    ensures Args(s, SkipBlanks(s, i), room) == Args(s, i, room)
  {
    SkipTwice(s, i);
  }

  /** The arguments found so far all lie before `w`. */
  ghost predicate Found(buf: seq<char>, argv: seq<int>, toks: seq<string>, w: nat) {
    |toks| <= |argv| && forall j :: 0 <= j < |toks| ==> Holds(buf, argv[j], toks[j]) && argv[j] + |toks[j]| < w
  }

  lemma FoundKept(buf: seq<char>, buf': seq<char>, argv: seq<int>, toks: seq<string>, w: nat)
    requires Found(buf, argv, toks, w) && |buf'| == |buf| && w <= |buf| && buf'[..w] == buf[..w]
    ensures Found(buf', argv, toks, w)
  {
    forall j | 0 <= j < |toks| ensures Holds(buf', argv[j], toks[j]) {
      var at, n := argv[j], |toks[j]|;
      assert buf'[at..at + n] == buf'[..w][at..at + n] && buf[at..at + n] == buf[..w][at..at + n];
      assert buf'[..w][at + n] == buf[..w][at + n];
    }
  }

  lemma FoundMore(buf: seq<char>, argv: seq<int>, argv': seq<int>, toks: seq<string>, tok: string, at: nat)
    requires Found(buf, argv, toks, at) && Holds(buf, at, tok)
    requires |argv'| == |argv| && |toks| < |argv| && argv'[|toks|] == at && argv'[..|toks|] == argv[..|toks|]
    ensures Found(buf, argv', toks + [tok], at + |tok| + 1)
  {
    forall j | 0 <= j < |toks| ensures argv'[j] == argv[j] {
      assert argv'[..|toks|][j] == argv[..|toks|][j];
    }
  }

  /** Moves the cursor over blanks of the part that is still as it was. */
  method SkipFrom(line: array<char>, r0: nat, ghost s: string) returns (r: nat)
    requires Unread(line[..], s, r0) && Terminated(s)
    ensures r == SkipBlanks(s, r0)
  {
    r := r0;
    while Blank(line[r])
      invariant r0 <= r <= |s| && SkipBlanks(s, r) == SkipBlanks(s, r0)
      decreases |s| - r
    {
      r := r + 1;
    }
  }

  /** Takes one argument: copies its word down, finds the next one, and only then writes the terminator. */
  method TakeArgument(line: array<char>, r0: nat, w0: nat, ghost s: string) returns (r: nat, w: nat)
    requires Unread(line[..], s, r0) && w0 <= r0 < |s| && Terminated(s) && !Blank(s[r0])
    modifies line
    ensures r == SkipBlanks(s, Word(s, r0).1) && Unread(line[..], s, r)
    ensures w == w0 + |Word(s, r0).0| + 1 <= (if r == |s| then |s| + 1 else r)
    ensures line[..w0] == old(line[..w0]) && Holds(line[..], w0, Word(s, r0).0)
  {
    hide Word, Quoted, SkipBlanks;
    ghost var was, tok := line[..w0], Word(s, r0).0;
    WordProgress(s, r0);
    r, w := CopyWord(line, r0, w0, s);
    var next := SkipFrom(line, r, s);
    NextAfterWord(s, r0, next);
    assert line[..w0] == (was + tok)[..w0] && line[w0..w] == (was + tok)[w0..];
    line[w] := '\0';
    w := w + 1;
    r := next;
  }

  /**
   Tokenizes the line within its own buffer. The result is that of tokenizing a copy: no argument is
   overwritten by a later one, and nothing is written over text that is still to be read.
   */
  method ShellTokenize(line: array<char>, argv: array<int>, ghost s: string) returns (argc: nat)
    requires line[..] == s + "\0" && Terminated(s) && argv.Length == MAX_ARGS + 1
    modifies line, argv
    ensures argc == |Tokens(s)| <= MAX_ARGS && argv[argc] == -1
    ensures forall j :: 0 <= j < argc ==> Holds(line[..], argv[j], Tokens(s)[j])
  {
    hide Word, Quoted, SkipBlanks, Holds, Found, Args;
    argc := 0;
    var r: nat, w: nat := 0, 0;
    ghost var toks: seq<string> := [];
    FoundNone(line[..], argv[..], w);
    while line[r] != '\0'
      invariant argc == |toks| <= MAX_ARGS && Unread(line[..], s, r) && w <= (if r == |s| then |s| + 1 else r)
      invariant toks + Args(s, r, MAX_ARGS - argc) == Tokens(s)
      invariant Found(line[..], argv[..], toks, w)
      decreases |s| - r, if argc < MAX_ARGS then 1 else 0
    {
      ArgsSkip(s, r, MAX_ARGS - argc);
      r := SkipFrom(line, r, s);
      if line[r] == '\0' {
        break;
      }
      if argc >= MAX_ARGS {
        break;
      }
      ghost var start, at, buf, args := r, w, line[..], argv[..];
      ghost var tok := Word(s, start).0;
      WordProgress(s, start);
      ArgsStep(s, start, MAX_ARGS - argc, toks);
      argv[argc] := w;
      argc := argc + 1;
      r, w := TakeArgument(line, r, w, s);
      assert line[..][..at] == line[..at] && buf[..at] == line[..at];
      FoundKept(buf, line[..], args, toks, at);
      FoundMore(line[..], args, argv[..], toks, tok, at);
      toks := toks + [tok];
    }
    NoMoreArgs(s, r, MAX_ARGS - argc);
    FoundArgs(line[..], argv[..], toks, w);
    argv[argc] := -1;
  }

  lemma ArgsStep(s: string, i: nat, room: nat, toks: seq<string>)
    requires i < |s| && !Blank(s[i]) && room > 0
    ensures toks + Args(s, i, room)
         == (toks + [Word(s, i).0]) + Args(s, SkipBlanks(s, Word(s, i).1), room - 1)
  {
    hide Word, SkipBlanks;
    AtWord(s, i);
    ArgsSkip(s, Word(s, i).1, room - 1);
    Regroup(toks, [Word(s, i).0], Args(s, Word(s, i).1, room - 1));
  }

  lemma Regroup<T>(a: seq<T>, b: seq<T>, c: seq<T>)
    ensures a + (b + c) == (a + b) + c
  {
  }

  lemma FoundNone(buf: seq<char>, argv: seq<int>, w: nat)
    ensures Found(buf, argv, [], w)
  {
  }

  lemma FoundArgs(buf: seq<char>, argv: seq<int>, toks: seq<string>, w: nat)
    requires Found(buf, argv, toks, w)
    ensures |toks| <= |argv| && forall j :: 0 <= j < |toks| ==> Holds(buf, argv[j], toks[j])
  {
  }

  lemma AtWord(s: string, i: nat)
    requires i < |s| && !Blank(s[i])
    ensures SkipBlanks(s, i) == i
  {
  }

  /** Behind a word there is a blank or the end, so the terminator never lands on the next word. */
  lemma NextAfterWord(s: string, i: nat, next: nat)
    requires i <= |s| && next == SkipBlanks(s, Word(s, i).1)
    ensures Word(s, i).1 == next ==> next == |s|
  {
  }

  lemma NoMoreArgs(s: string, i: nat, room: nat)
    requires i <= |s| && (i == |s| || room == 0)
    ensures Args(s, i, room) == []
  {
  }

  // ----- quoting a name -----

  /** Characters that make quotes necessary. */
  predicate Special(c: char) { Blank(c) || Quote(c) || c == '\\' }

  predicate Escaped(c: char) { c == '"' || c == '\\' }

  predicate Plain(s: string) { forall i :: 0 <= i < |s| ==> !Special(s[i]) }

  predicate Unescaped(s: string) { forall i :: 0 <= i < |s| ==> !Escaped(s[i]) }

  function Escape(s: string): string {
    if s == "" then "" else Escape(s[..|s| - 1]) + (if Escaped(s[|s| - 1]) then "\\" else "") + [s[|s| - 1]]
  }

  function QuoteName(name: string): string {
    if Plain(name) then name else "\"" + Escape(name) + "\""
  }

  /** From character `i` on: the first that is not copied, because two more places are not left for it. */
  function Kept(src: string, cap: nat, i: nat): (k: nat)
    requires i <= |src|
    ensures i <= k <= |src|
    decreases |src| - i
  {
    if i == |src| || |Escape(src[..i])| + 3 >= cap then i else Kept(src, cap, i + 1)
  }

  /** What is left of a quoted name in a buffer of `cap` characters, one of them for the terminator. */
  function QuoteIn(name: string, cap: nat): string
    requires cap > 0
  {
    if Plain(name) then if |name| < cap then name else name[..cap - 1]
    else if cap == 1 then ""
    else
      var open := "\"" + Escape(name[..Kept(name, cap, 0)]);
      if |open| + 1 < cap then open + "\"" else open
  }

  lemma {:induction false} EscapeGrows(s: string, k: nat)
    requires k <= |s|
    ensures |Escape(s[..k])| + (|s| - k) <= |Escape(s)|
    decreases |s|
  {
    if k < |s| {
      EscapeGrows(s[..|s| - 1], k);
      assert s[..|s| - 1][..k] == s[..k];
    } else {
      assert s[..k] == s;
    }
  }

  /** Copies as much of a string as the buffer can hold. */
  method CopyCstr(src: string, dst: array<char>) returns (n: nat)
    requires dst.Length > 0
    modifies dst
    ensures n == (if |src| < dst.Length then |src| else dst.Length - 1) && dst[n] == '\0' && dst[..n] == src[..n]
  {
    n := if |src| < dst.Length then |src| else dst.Length - 1;
    for i := 0 to n
      invariant dst[..i] == src[..i]
    {
      dst[i] := src[i];
    }
    dst[n] := '\0';
  }

  /** Copies the characters of the name behind the opening quote, escaped, while two more still fit. */
  method CopyEscaped(src: string, dst: array<char>) returns (o: nat, ghost i: nat)
    requires dst.Length > 1 && dst[..1] == "\""
    modifies dst
    ensures o < dst.Length && i == Kept(src, dst.Length, 0) && dst[..o] == "\"" + Escape(src[..i])
  {
    hide Escape, Kept;
    EscapeNone(src);
    var k := 0;
    o := 1;
    while k < |src| && o + 2 < dst.Length
      invariant k <= |src| && 1 <= o < dst.Length
      invariant dst[..o] == "\"" + Escape(src[..k]) && Kept(src, dst.Length, k) == Kept(src, dst.Length, 0)
    {
      KeptStep(src, dst.Length, k);
      ghost var was, now := dst[..o], Escape(src[..k]);
      EscapeOne(src, k);
      if Escaped(src[k]) {
        dst[o] := '\\';
        dst[o + 1] := src[k];
        o := o + 2;
        assert dst[..o] == was + ['\\', src[k]];
        assert ("\"" + now) + ['\\', src[k]] == "\"" + (now + ['\\', src[k]]);
      } else {
        dst[o] := src[k];
        o := o + 1;
        assert dst[..o] == was + [src[k]];
        assert ("\"" + now) + [src[k]] == "\"" + (now + [src[k]]);
      }
      k := k + 1;
    }
    KeptStep(src, dst.Length, k);
    i := k;
  }

  lemma KeptStep(src: string, cap: nat, i: nat)
    requires i <= |src|
    ensures Kept(src, cap, i) == if i == |src| || |Escape(src[..i])| + 3 >= cap then i else Kept(src, cap, i + 1)
  {
  }

  lemma EscapeNone(src: string)
    ensures Escape(src[..0]) == "" && "\"" + "" == "\""
  {
  }

  lemma EscapeOne(src: string, k: nat)
    requires k < |src|
    ensures Escape(src[..k + 1]) == Escape(src[..k]) + if Escaped(src[k]) then ['\\', src[k]] else [src[k]]
  {
    assert src[..k + 1][..k] == src[..k];
  }

  /** Writes the name into a buffer, in quotes where needed; a name too long for it is cut off. */
  method GlobQuote(src: string, dst: array<char>) returns (o: nat)
    requires dst.Length > 0
    modifies dst
    ensures o < dst.Length && dst[o] == '\0' && dst[..o] == QuoteIn(src, dst.Length)
  {
    hide Escape, Kept;
    var need := false;
    for i := 0 to |src|
      invariant need <==> exists j :: 0 <= j < i && Special(src[j])
    {
      if Special(src[i]) {
        need := true;
        break;
      }
    }
    if !need {
      o := CopyCstr(src, dst);
      assert src[..|src|] == src;
      return;
    }
    o := 0;
    if o + 1 < dst.Length {
      dst[o] := '"';
      assert dst[..1] == "\"";
      ghost var i;
      o, i := CopyEscaped(src, dst);
    }
    if o + 1 < dst.Length {
      ghost var was := dst[..o];
      dst[o] := '"';
      o := o + 1;
      assert dst[..o] == was + "\"";
    }
    dst[o] := '\0';
  }

  /** While the whole name fits, none of it is cut off. */
  lemma {:induction false} KeepsAll(src: string, cap: nat, i: nat)
    requires i <= |src| && |Escape(src)| + 2 < cap
    ensures Kept(src, cap, i) == |src|
    decreases |src| - i
  {
    hide Escape, Kept;
    KeptStep(src, cap, i);
    EscapeGrows(src, i);
    if i < |src| {
      KeepsAll(src, cap, i + 1);
    }
  }

  /** The buffer receives the quoted name exactly when it has room for it and the terminator. */
  lemma QuotedWholeExactlyWhen(name: string, cap: nat)
    requires cap > 0
    ensures QuoteIn(name, cap) == QuoteName(name) <==> |QuoteName(name)| < cap
    ensures |QuoteIn(name, cap)| < cap
  {
    hide Escape, Kept;
    if Plain(name) {
      assert |name| >= cap ==> |name[..cap - 1]| < |name|;
    } else if cap > 1 {
      EscapeNone(name);
      KeptFits(name, cap, 0);
      if |QuoteName(name)| < cap {
        KeepsAll(name, cap, 0);
        assert name[..|name|] == name;
      }
    }
  }

  lemma {:induction false} KeptFits(src: string, cap: nat, i: nat)
    requires i <= |src| && |Escape(src[..i])| + 1 < cap
    ensures |Escape(src[..Kept(src, cap, i)])| + 1 < cap
    decreases |src| - i
  {
    hide Escape, Kept;
    KeptStep(src, cap, i);
    if i < |src| && |Escape(src[..i])| + 3 < cap {
      EscapeOne(src, i);
      KeptFits(src, cap, i + 1);
    }
  }

  // ----- which names survive -----

  lemma {:induction false} PlainWord(s: string, i: nat)
    requires i <= |s| && Plain(s)
    ensures Word(s, i) == (s[i..], |s|)
    decreases |s| - i
  {
    if i < |s| {
      PlainWord(s, i + 1);
      assert s[i..] == [s[i]] + s[i + 1..];
    } else {
      assert s[i..] == "";
    }
  }

  /** Text without the closing quote is taken over as it is. */
  lemma {:induction false} QuotedRun(s: string, i: nat, q: char, k: nat)
    requires i + k <= |s| && forall j :: i <= j < i + k ==> s[j] != q
    ensures Quoted(s, i, q).0 == s[i..i + k] + Quoted(s, i + k, q).0
    ensures Quoted(s, i, q).1 == Quoted(s, i + k, q).1
    decreases k
  {
    if k > 0 {
      QuotedRun(s, i + 1, q, k - 1);
      assert s[i..i + k] == [s[i]] + s[i + 1..i + k];
    }
  }

  lemma {:induction false} EscapeNothing(s: string)
    requires Unescaped(s)
    ensures Escape(s) == s
  {
    if s != "" {
      EscapeNothing(s[..|s| - 1]);
      assert s == s[..|s| - 1] + [s[|s| - 1]];
    }
  }

  lemma OneToken(s: string, name: string)
    requires s != "" && !Blank(s[0]) && Word(s, 0) == (name, |s|)
    ensures Tokens(s) == [name]
  {
    hide Word;
    AtWord(s, 0);
    NoMoreArgs(s, |s|, MAX_ARGS - 1);
  }

  /** A text in double quotes, without one inside, is one word. */
  lemma QuotedWord(name: string)
    requires Unescaped(name)
    ensures var s := "\"" + name + "\""; Word(s, 0) == (name, |s|)
  {
    hide Word, Quoted;
    var s := "\"" + name + "\"";
    assert s[1..1 + |name|] == name;
    InQuotes(name);
    QuotedRun(s, 1, '"', |name|);
    QuotedOne(s, 1 + |name|, '"');
    WordQuoted(s, 0, "");
    WordEnds(s, |s|);
    assert name + "" == name;
    assert "" + Word(s, 0).0 == Word(s, 0).0 && "" + name + "" == name;
  }

  lemma InQuotes(name: string)
    requires Unescaped(name)
    ensures var s := "\"" + name + "\"";
      s[0] == '"' && s[1 + |name|] == '"' && forall j :: 1 <= j < 1 + |name| ==> s[j] != '"'
  {
    var s := "\"" + name + "\"";
    forall j | 1 <= j < 1 + |name| ensures s[j] != '"' {
      assert s[j] == name[j - 1];
    }
  }

  /** A name without double quotes and backslashes comes back as one argument, blanks and all. */
  lemma NameSurvives(name: string)
    requires name != "" && Unescaped(name)
    ensures Tokens(QuoteName(name)) == [name]
  {
    hide Escape, Word, Quoted, Args;
    if Plain(name) {
      PlainWord(name, 0);
      OneToken(name, name);
    } else {
      EscapeNothing(name);
      QuotedWord(name);
      OneToken("\"" + name + "\"", name);
    }
  }

  // ----- and which do not -----

  lemma {:induction false} EscapeJoin(a: string, b: string)
    ensures Escape(a + b) == Escape(a) + Escape(b)
    decreases |b|
  {
    if b == "" {
      assert a + b == a;
    } else {
      var n := |b| - 1;
      assert (a + b)[..|a + b| - 1] == a + b[..n];
      EscapeJoin(a, b[..n]);
    }
  }

  lemma {:induction false} EscapeRun(n: nat)
    ensures Escape(seq(n, _ => '\\')) == seq(2 * n, _ => '\\')
  {
    if n > 0 {
      EscapeRun(n - 1);
      assert seq(n, _ => '\\')[..n - 1] == seq(n - 1, _ => '\\');
      assert seq(2 * n, _ => '\\') == seq(2 * (n - 1), _ => '\\') + "\\" + "\\";
    }
  }

  /** The first double quote or backslash of a name. */
  lemma {:induction false} FirstEscaped(name: string) returns (p: nat)
    requires !Unescaped(name)
    ensures p < |name| && Escaped(name[p]) && Unescaped(name[..p])
  {
    if Unescaped(name[..|name| - 1]) {
      p := |name| - 1;
    } else {
      p := FirstEscaped(name[..|name| - 1]);
      assert name[..|name| - 1][..p] == name[..p];
    }
  }

  /** How far a run of backslashes reaches. */
  lemma {:induction false} RunLength(name: string, p: nat) returns (n: nat)
    requires p <= |name|
    ensures p + n <= |name| && name[p..p + n] == seq(n, _ => '\\') && (p + n < |name| ==> name[p + n] != '\\')
    ensures p < |name| && name[p] == '\\' ==> n > 0
    decreases |name| - p
  {
    if p == |name| || name[p] != '\\' {
      n := 0;
    } else {
      var m := RunLength(name, p + 1);
      n := m + 1;
      assert name[p..p + n] == [name[p]] + name[p + 1..p + 1 + m];
    }
  }

  /** What the quoted name begins with, when its first `k` escaped characters hold no double quote. */
  lemma TokenBegins(name: string, w: string, rest: string)
    requires QuoteName(name) == "\"" + w + rest && forall j :: 0 <= j < |w| ==> w[j] != '"'
    ensures w <= Word(QuoteName(name), 0).0
  {
    var s := QuoteName(name);
    assert s[1..1 + |w|] == w;
    forall j | 1 <= j < 1 + |w| ensures s[j] != '"' { assert s[j] == w[j - 1]; }
    QuotedRun(s, 1, '"', |w|);
  }

  lemma EscapeParts(a: string, b: string, c: string)
    ensures Escape(a + b + c) == Escape(a) + Escape(b) + Escape(c)
  {
    EscapeJoin(a + b, c);
    EscapeJoin(a, b);
  }

  /** At a double quote the backslash before it appears in the argument. */
  lemma LostAtQuote(name: string, p: nat)
    requires p < |name| && name[p] == '"' && Unescaped(name[..p])
    ensures Word(QuoteName(name), 0).0 != name
  {
    hide Escape, Word, QuoteName;
    var w, rest := name[..p] + "\\", "\"" + Escape(name[p + 1..]) + "\"";
    assert Special(name[p]);
    QuoteParts(name, p);
    TokenBegins(name, w, rest);
    assert Word(QuoteName(name), 0).0[p] == w[p];
  }

  lemma QuoteParts(name: string, p: nat)
    requires p < |name| && name[p] == '"' && Unescaped(name[..p])
    ensures QuoteName(name) == "\"" + (name[..p] + "\\") + ("\"" + Escape(name[p + 1..]) + "\"")
  {
    hide Escape, Unescaped;
    var head, tail := name[..p], name[p + 1..];
    EscapeNothing(head);
    assert Special(name[p]);
    assert name == head + "\"" + tail;
    EscapeQuote();
    EscapeParts(head, "\"", tail);
    assert Escape(name) == head + "\\\"" + Escape(tail);
  }

  lemma EscapeQuote()
    ensures Escape("\"") == "\\\""
  {
    assert "\""[..0] == "";
  }

  /** A run of backslashes appears twice as long. */
  lemma LostAtBackslash(name: string, p: nat)
    requires p < |name| && name[p] == '\\' && Unescaped(name[..p])
    ensures Word(QuoteName(name), 0).0 != name
  {
    hide Escape, Word, QuoteName;
    var n := RunLength(name, p);
    var w, rest := name[..p] + seq(2 * n, _ => '\\'), Escape(name[p + n..]) + "\"";
    QuotedRunName(name, p, n);
    TokenBegins(name, w, rest);
    var t := Word(QuoteName(name), 0).0;
    assert |w| == p + 2 * n && w[p + n] == '\\' && t[p + n] == w[p + n];
  }

  lemma QuotedRunName(name: string, p: nat, n: nat)
    requires p + n <= |name| && n > 0 && name[p..p + n] == seq(n, _ => '\\') && Unescaped(name[..p])
    ensures QuoteName(name) == "\"" + (name[..p] + seq(2 * n, _ => '\\')) + (Escape(name[p + n..]) + "\"")
    ensures forall j :: 0 <= j < p ==> name[..p][j] != '"'
  {
    hide Escape;
    var head, run, tail := name[..p], name[p..p + n], name[p + n..];
    assert name == head + run + tail;
    EscapeNothing(head);
    EscapeParts(head, run, tail);
    EscapeRun(n);
    assert name[p] == name[p..p + n][0] == '\\';
    assert Special(name[p]);
  }

  /** Inside quotes a backslash is no escape, so an escaped character always changes the argument. */
  lemma NameIsLost(name: string)
    requires !Unescaped(name)
    ensures Tokens(QuoteName(name)) != [name]
  {
    var p := FirstEscaped(name);
    assert Special(name[p]);
    if name[p] == '"' {
      LostAtQuote(name, p);
    } else {
      LostAtBackslash(name, p);
    }
    FirstToken(QuoteName(name), Word(QuoteName(name), 0).0);
  }

  lemma FirstToken(s: string, t: string)
    requires s != "" && !Blank(s[0]) && t == Word(s, 0).0
    ensures Tokens(s) != [] && Tokens(s)[0] == t
  {
    AtWord(s, 0);
  }

  /** Quoting works exactly for names without double quotes and backslashes. */
  lemma SurvivesExactlyWhen(name: string)
    requires name != ""
    ensures Tokens(QuoteName(name)) == [name] <==> Unescaped(name)
  {
    if Unescaped(name) {
      NameSurvives(name);
    } else {
      NameIsLost(name);
    }
  }
}
