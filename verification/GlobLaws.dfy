/** What each piece of a pattern does to a match, told on the pattern's text. */
module GlobLaws {
  import opened Basics
  import opened Glob

  ghost predicate Matches(pattern: string, text: string, fold: bool) { Fits(Tokens(pattern, 0), text, fold) }

  predicate Capital(c: char) { 'A' <= c <= 'Z' }

  /** The same character, or the same letter in the other case when case does not count. */
  predicate Alike(c: char, d: char, fold: bool) {
    c == d || (fold && Capital(c) && d as int == c as int + 0x20) || (fold && Capital(d) && c as int == d as int + 0x20)
  }

  lemma FoldsAlike(c: char, d: char, fold: bool)
    ensures Fold(c, fold) == Fold(d, fold) <==> Alike(c, d, fold)
  {
  }

  /** A range compares characters as they are, or all three as small letters. */
  lemma RangeMeans(lo: char, hi: char, c: char, lo': char, hi': char, c': char, fold: bool)
    requires Alike(lo, lo', fold) && Alike(hi, hi', fold) && Alike(c, c', fold)
    requires fold ==> !Capital(lo') && !Capital(hi') && !Capital(c')
    ensures InRange(Range(lo, hi), c, fold) <==> lo' <= c' <= hi'
  {
  }

  // ----- a pattern behind other text -----

  lemma {:induction false} ClosingBehind(a: string, p: string, i: nat)
    requires i <= |p|
    ensures Closing(a + p, |a| + i) == match Closing(p, i) case None => None case Some(j) => Some(|a| + j)
    decreases |p| - i
  {
    if i < |p| {
      ClosingBehind(a, p, i + 1);
    }
  }

  lemma SliceBehind(a: string, p: string, i: nat, j: nat)
    requires i <= j <= |p|
    ensures (a + p)[|a| + i..|a| + j] == p[i..j]
  {
  }

  lemma TokenBehind(a: string, p: string, i: nat)
    requires i < |p|
    ensures TokenAt(a + p, |a| + i) == (TokenAt(p, i).0, |a| + TokenAt(p, i).1)
  {
    hide ClassOf, Closing;
    assert (a + p)[|a| + i] == p[i];
    if p[i] == '[' {
      ClosingBehind(a, p, i + 1);
      var close := Closing(p, i + 1);
      if close.Some? { SliceBehind(a, p, i + 1, close.value); }
    }
  }

  lemma {:induction false} TokensBehind(a: string, p: string, i: nat)
    requires i <= |p|
    ensures Tokens(a + p, |a| + i) == Tokens(p, i)
    decreases |p| - i
  {
    hide TokenAt;
    if i < |p| {
      TokenBehind(a, p, i);
      TokensBehind(a, p, TokenAt(p, i).1);
    }
  }

  /** The tokens of a first piece `a`, and of the rest. */
  lemma FirstToken(a: string, p: string, t: Token)
    requires a != "" && TokenAt(a + p, 0) == (t, |a|)
    ensures Tokens(a + p, 0) == [t] + Tokens(p, 0)
  {
    hide TokenAt;
    TokensBehind(a, p, 0);
  }

  lemma FirstFits(t: Token, toks: seq<Token>, text: string, fold: bool)
    requires !t.Star?
    ensures Fits([t] + toks, text, fold) <==> text != "" && Accepts(t, text[0], fold) && Fits(toks, text[1..], fold)
  {
    hide Accepts;
    assert ([t] + toks)[0] == t && ([t] + toks)[1..] == toks;
  }

  /** A piece that is one token other than a star takes one character. */
  lemma OneToken(a: string, p: string, t: Token, text: string, fold: bool)
    requires a != "" && TokenAt(a + p, 0) == (t, |a|) && !t.Star?
    ensures Matches(a + p, text, fold) <==> text != "" && Accepts(t, text[0], fold) && Matches(p, text[1..], fold)
  {
    hide TokenAt, Accepts, Fits, Tokens;
    FirstToken(a, p, t);
    FirstFits(t, Tokens(p, 0), text, fold);
  }

  // ----- the pieces -----

  lemma EmptyPattern(text: string, fold: bool)
    ensures Matches("", text, fold) <==> text == ""
  {
  }

  /** A star takes any beginning of the text. */
  lemma StarTakes(p: string, text: string, fold: bool)
    ensures Matches("*" + p, text, fold) <==> exists k :: 0 <= k <= |text| && Matches(p, text[k..], fold)
  {
    hide Tokens;
    FirstToken("*", p, Star);
    StarFirst(Tokens(p, 0), text, fold);
  }

  lemma StarFirst(toks: seq<Token>, text: string, fold: bool)
    ensures Fits([Star] + toks, text, fold) <==> exists k :: 0 <= k <= |text| && Fits(toks, text[k..], fold)
  {
    assert ([Star] + toks)[0] == Star && ([Star] + toks)[1..] == toks;
  }

  lemma AnyTakes(p: string, text: string, fold: bool)
    ensures Matches("?" + p, text, fold) <==> text != "" && Matches(p, text[1..], fold)
  {
    hide Fits, Tokens;
    OneToken("?", p, Any, text, fold);
  }

  /** Any other character stands for itself. */
  lemma PlainTakes(c: char, p: string, text: string, fold: bool)
    requires c != '*' && c != '?' && c != '[' && c != '\\'
    ensures Matches([c] + p, text, fold) <==> text != "" && Alike(c, text[0], fold) && Matches(p, text[1..], fold)
  {
    hide Fits, Tokens, Fold;
    OneToken([c], p, Literal(c), text, fold);
    if text != "" { FoldsAlike(c, text[0], fold); }
  }

  /** A backslash makes the next character stand for itself; at the end it does so itself. */
  lemma EscapeTakes(c: char, p: string, text: string, fold: bool)
    ensures Matches("\\" + [c] + p, text, fold)
      <==> text != "" && Alike(c, text[0], fold) && Matches(p, text[1..], fold)
    ensures Matches("\\", text, fold) <==> text == "\\"
  {
    hide Fits, Tokens, Fold;
    assert ("\\" + [c] + p)[0] == '\\' && ("\\" + [c] + p)[1] == c;
    OneToken("\\" + [c], p, Literal(c), text, fold);
    assert "\\" + "" == "\\";
    OneToken("\\", "", Literal('\\'), text, fold);
    if text != "" {
      FoldsAlike(c, text[0], fold);
      FoldsAlike('\\', text[0], fold);
      EmptyPattern(text[1..], fold);
      assert text == [text[0]] + text[1..];
    }
  }

  /** What the body of a class accepts. */
  predicate InClass(body: string, c: char, fold: bool) { Accepts(ClassOf(body), c, fold) }

  lemma {:induction false} ClosingIs(p: string, i: nat, j: nat)
    requires i <= j <= |p| && (forall k :: i <= k < j ==> p[k] != ']') && (j < |p| ==> p[j] == ']')
    ensures Closing(p, i) == if j < |p| then Some(j) else None
    decreases j - i
  {
    if i < j {
      ClosingIs(p, i + 1, j);
    }
  }

  lemma BracketsHere(body: string, p: string)
    requires ']' !in body
    ensures var s := "[" + body + "]" + p;
      && s[0] == '[' && s[1 + |body|] == ']' && s[1..1 + |body|] == body
      && forall k :: 1 <= k < 1 + |body| ==> s[k] != ']'
  {
    var s := "[" + body + "]" + p;
    assert s[1..1 + |body|] == body;
    forall k | 1 <= k < 1 + |body| ensures s[k] != ']' {
      assert s[k] == body[k - 1];
    }
  }

  /** A class, up to its first closing bracket, takes a character that its body accepts. */
  lemma ClassTakes(body: string, p: string, text: string, fold: bool)
    requires ']' !in body
    ensures Matches("[" + body + "]" + p, text, fold)
      <==> text != "" && InClass(body, text[0], fold) && Matches(p, text[1..], fold)
  {
    hide Fits, Tokens, ClassOf, Accepts, Closing;
    BracketsHere(body, p);
    var s := "[" + body + "]" + p;
    ClosingIs(s, 1, 1 + |body|);
    ClassIsNoStar(body);
    OneToken("[" + body + "]", p, ClassOf(body), text, fold);
  }

  lemma ClassIsNoStar(body: string)
    ensures !ClassOf(body).Star?
  {
  }

  /** Without a closing bracket the opening one stands for itself. */
  lemma OpenTakes(p: string, text: string, fold: bool)
    requires ']' !in p
    ensures Matches("[" + p, text, fold) <==> text != "" && text[0] == '[' && Matches(p, text[1..], fold)
  {
    hide Fits, Tokens, Closing;
    var s := "[" + p;
    forall k | 1 <= k < |s| ensures s[k] != ']' { assert s[k] == p[k - 1]; }
    ClosingIs(s, 1, |s|);
    OneToken("[", p, Literal('['), text, fold);
    if text != "" { FoldsAlike('[', text[0], fold); }
  }

  // ----- class bodies -----

  /** Some member of the body accepts the character. */
  predicate Member(body: string, c: char, fold: bool) { AnyIn(Members(body, 0), c, fold) }

  /** A leading exclamation mark or circumflex negates. */
  lemma ClassNegates(body: string, c: char, fold: bool)
    ensures InClass(body, c, fold)
      <==> if body != "" && (body[0] == '!' || body[0] == '^') then !Member(body[1..], c, fold)
           else Member(body, c, fold)
  {
    hide AnyIn, Members;
    if body != "" && (body[0] == '!' || body[0] == '^') {
      assert body == [body[0]] + body[1..];
      MembersBehind([body[0]], body[1..], 0);
    }
  }

  lemma MemberBehind(a: string, p: string, i: nat)
    requires i < |p|
    ensures MemberAt(a + p, |a| + i) == (MemberAt(p, i).0, |a| + MemberAt(p, i).1)
  {
    assert forall k :: 0 <= k < |p| ==> (a + p)[|a| + k] == p[k];
  }

  lemma {:induction false} MembersBehind(a: string, p: string, i: nat)
    requires i <= |p|
    ensures Members(a + p, |a| + i) == Members(p, i)
    decreases |p| - i
  {
    hide MemberAt;
    if i < |p| {
      MemberBehind(a, p, i);
      MembersBehind(a, p, MemberAt(p, i).1);
    }
  }

  lemma FirstMember(a: string, rest: string, r: Range, c: char, fold: bool)
    requires a != "" && MemberAt(a + rest, 0) == (r, |a|)
    ensures Member(a + rest, c, fold) <==> InRange(r, c, fold) || Member(rest, c, fold)
  {
    hide MemberAt, InRange, AnyIn;
    MembersBehind(a, rest, 0);
    AnyCons(r, Members(rest, 0), c, fold);
  }

  lemma NoMember(c: char, fold: bool)
    ensures !Member("", c, fold)
  {
  }

  /** A range, of which a backslash may escape the first bound. */
  lemma RangeMember(escaped: bool, x: char, y: char, rest: string, c: char, fold: bool)
    requires !escaped ==> x != '\\'
    ensures Member((if escaped then "\\" else "") + [x, '-', y] + rest, c, fold)
      <==> InRange(Range(x, y), c, fold) || Member(rest, c, fold)
  {
    hide AnyIn, InRange, Members;
    var a := (if escaped then "\\" else "") + [x, '-', y];
    var s, j := a + rest, if escaped then 1 else 0;
    assert s[j] == x && s[j + 1] == '-' && s[j + 2] == y && (escaped ==> s[0] == '\\');
    FirstMember(a, rest, Range(x, y), c, fold);
  }

  /** A single character, escaped or not, that begins no range. */
  lemma SingleMember(escaped: bool, x: char, rest: string, c: char, fold: bool)
    requires !escaped ==> x != '\\' || rest == ""
    requires |rest| < 2 || rest[0] != '-'
    ensures Member((if escaped then "\\" else "") + [x] + rest, c, fold)
      <==> Alike(x, c, fold) || Member(rest, c, fold)
  {
    hide AnyIn, Members, Fold;
    var a := (if escaped then "\\" else "") + [x];
    var s, j := a + rest, if escaped then 1 else 0;
    assert s[j] == x && (escaped ==> s[0] == '\\') && (rest != "" ==> s[j + 1] == rest[0]);
    FirstMember(a, rest, Range(x, x), c, fold);
    FoldsAlike(x, c, fold);
  }
}
