/** What lines split into: words between blanks, quotations of either kind, and escapes. */
module TokenizeLaws {
  import opened Tokenize

  /** Characters that stand for themselves outside of quotes. */
  predicate Plain(w: string) {
    forall i :: 0 <= i < |w| ==> w[i] != ' ' && w[i] != '\t' && w[i] != '"' && w[i] != '\'' && w[i] != '\\'
  }

  predicate Gap(w: string) { forall i :: 0 <= i < |w| ==> w[i] == ' ' || w[i] == '\t' }

  /** The text `w` stands at `i`. */
  predicate Here(s: string, i: nat, w: string) { i + |w| <= |s| && forall k :: 0 <= k < |w| ==> s[i + k] == w[k] }

  lemma HereParts(s: string, i: nat, a: string, b: string)
    requires Here(s, i, a + b)
    ensures Here(s, i, a) && Here(s, i + |a|, b)
  {
    assert forall k :: 0 <= k < |a| ==> (a + b)[k] == a[k];
    forall k | 0 <= k < |b| ensures s[i + |a| + k] == b[k] {
      assert (a + b)[|a| + k] == b[k];
    }
  }

  lemma {:induction false} GapSkipped(s: string, i: nat, w: string)
    requires Here(s, i, w) && Gap(w)
    ensures SkipBlanks(s, i) == SkipBlanks(s, i + |w|)
    decreases |w|
  {
    if w != "" {
      assert s[i + 0] == w[0];
      assert Here(s, i + 1, w[1..]) by {
        forall k | 0 <= k < |w| - 1 ensures s[i + 1 + k] == w[1..][k] { assert s[i + (k + 1)] == w[k + 1]; }
      }
      GapSkipped(s, i + 1, w[1..]);
    }
  }

  /** Plain characters begin a word as they are. */
  lemma {:induction false} PlainBegins(s: string, i: nat, w: string)
    requires Here(s, i, w) && Plain(w)
    ensures Word(s, i) == (w + Word(s, i + |w|).0, Word(s, i + |w|).1)
    decreases |w|
  {
    if w == "" {
      assert w + Word(s, i).0 == Word(s, i).0;
    } else {
      assert s[i + 0] == w[0];
      assert Here(s, i + 1, w[1..]) by {
        forall k | 0 <= k < |w| - 1 ensures s[i + 1 + k] == w[1..][k] { assert s[i + (k + 1)] == w[k + 1]; }
      }
      PlainBegins(s, i + 1, w[1..]);
      WordPlain(s, i, "");
      FirstOf(w, Word(s, i + |w|).0);
      Nothing(Word(s, i).0);
      Nothing([s[i]]);
    }
  }

  lemma Nothing(w: string)
    ensures "" + w == w && w + "" == w
  {
  }

  lemma FirstOf(w: string, rest: string)
    requires w != ""
    ensures [w[0]] + (w[1..] + rest) == w + rest
  {
  }

  lemma {:induction false} QuotedIs(s: string, i: nat, q: char, t: string)
    requires Here(s, i, t) && (forall k :: 0 <= k < |t| ==> t[k] != q)
    requires i + |t| < |s| ==> s[i + |t|] == q
    ensures Quoted(s, i, q) == (t, if i + |t| < |s| then i + |t| + 1 else |s|)
    decreases |t|
  {
    if t != "" {
      assert s[i + 0] == t[0];
      assert Here(s, i + 1, t[1..]) by {
        forall k | 0 <= k < |t| - 1 ensures s[i + 1 + k] == t[1..][k] { assert s[i + (k + 1)] == t[k + 1]; }
      }
      QuotedIs(s, i + 1, q, t[1..]);
      assert [t[0]] + t[1..] == t;
    }
  }

  // ----- lines of words -----

  /** Words, each behind its gap. */
  function Spaced(words: seq<string>, gaps: seq<string>): string
    requires |gaps| == |words|
  {
    if words == [] then "" else gaps[0] + (words[0] + Spaced(words[1..], gaps[1..]))
  }

  ghost predicate SpacedOk(words: seq<string>, gaps: seq<string>) {
    && |gaps| == |words|
    && (forall i :: 0 <= i < |words| ==> words[i] != "" && Plain(words[i]) && Gap(gaps[i]))
    && forall i :: 1 <= i < |words| ==> gaps[i] != ""
  }

  lemma OneWord(s: string, i: nat, w: string)
    requires Here(s, i, w) && Plain(w) && w != "" && (i + |w| < |s| ==> s[i + |w|] == ' ' || s[i + |w|] == '\t')
    ensures Word(s, i) == (w, i + |w|) && SkipBlanks(s, i) == i < |s|
  {
    hide Word, Quoted;
    PlainBegins(s, i, w);
    WordEnds(s, i + |w|);
    Nothing(w);
    assert s[i + 0] == w[0];
  }

  lemma ArgsFirst(s: string, i: nat, j: nat, w: string, room: nat)
    requires i <= |s| && SkipBlanks(s, i) == j < |s| && room > 0 && Word(s, j).0 == w
    ensures Args(s, i, room) == [w] + Args(s, Word(s, j).1, room - 1)
  {
    hide Word, SkipBlanks;
  }

  lemma NoArgs(s: string, i: nat, room: nat)
    requires i <= |s| && (room == 0 || SkipBlanks(s, i) == |s|)
    ensures Args(s, i, room) == []
  {
    hide Word, SkipBlanks;
  }

  lemma FirstSpaced(words: seq<string>, gaps: seq<string>, tail: string)
    requires SpacedOk(words, gaps) && words != []
    ensures Spaced(words, gaps) + tail == gaps[0] + (words[0] + (Spaced(words[1..], gaps[1..]) + tail))
    ensures SpacedOk(words[1..], gaps[1..]) && words[0] != "" && Plain(words[0]) && Gap(gaps[0])
  {
  }

  /** What follows a word begins with a blank, if anything follows. */
  lemma GapFollows(words: seq<string>, gaps: seq<string>, tail: string)
    requires SpacedOk(words, gaps) && words != [] && Gap(tail)
    ensures var rest := Spaced(words[1..], gaps[1..]) + tail; rest != "" ==> rest[0] == ' ' || rest[0] == '\t'
  {
    if |words| > 1 {
      assert gaps[1..][0] == gaps[1] != "";
    }
  }

  lemma TailEnds(s: string, i: nat, tail: string)
    requires Here(s, i, tail) && i + |tail| == |s| && Gap(tail)
    ensures SkipBlanks(s, i) == |s|
  {
    GapSkipped(s, i, tail);
  }

  lemma {:induction false} ArgsSpaced(s: string, i: nat, words: seq<string>, gaps: seq<string>, tail: string, room: nat)
    requires |gaps| == |words| && SpacedOk(words, gaps) && Gap(tail)
    requires Here(s, i, Spaced(words, gaps) + tail) && i + |Spaced(words, gaps) + tail| == |s|
    ensures Args(s, i, room) == if room < |words| then words[..room] else words
    decreases |words|
  {
    hide Args, Word, SkipBlanks, Spaced, SpacedOk, Here, Plain, Gap;
    if room == 0 {
      HereBound(s, i, Spaced(words, gaps) + tail);
      NoArgs(s, i, room);
    } else if words == [] {
      NoWords(gaps, tail);
      HereBound(s, i, tail);
      TailEnds(s, i, tail);
      NoArgs(s, i, room);
    } else {
      FirstSpaced(words, gaps, tail);
      GapFollows(words, gaps, tail);
      var gap, w, rest := gaps[0], words[0], Spaced(words[1..], gaps[1..]) + tail;
      HereParts(s, i, gap, w + rest);
      var j := i + |gap|;
      HereParts(s, j, w, rest);
      GapSkipped(s, i, gap);
      HereStart(s, j + |w|, rest);
      OneWord(s, j, w);
      ArgsFirst(s, i, j, w, room);
      ArgsSpaced(s, j + |w|, words[1..], gaps[1..], tail, room - 1);
      assert words == [w] + words[1..];
    }
  }

  lemma HereBound(s: string, i: nat, w: string)
    requires Here(s, i, w)
    ensures i <= i + |w| <= |s|
  {
  }

  lemma HereStart(s: string, i: nat, w: string)
    requires Here(s, i, w)
    ensures i + |w| <= |s| && (w != "" ==> s[i] == w[0])
  {
    if w != "" { assert s[i + 0] == w[0]; }
  }

  lemma NoWords(gaps: seq<string>, tail: string)
    requires gaps == []
    ensures Spaced([], gaps) + tail == tail
  {
  }

  /** A line of plain words splits at its blanks and tabs, however many; only the first sixteen words count. */
  lemma PlainLine(words: seq<string>, gaps: seq<string>, tail: string)
    requires |gaps| == |words| && SpacedOk(words, gaps) && Gap(tail)
    ensures Tokens(Spaced(words, gaps) + tail) == if |words| > 16 then words[..16] else words
  {
    hide Args, Spaced, SpacedOk, Gap;
    ArgsSpaced(Spaced(words, gaps) + tail, 0, words, gaps, tail, 16);
  }

  // ----- quotations and escapes -----

  lemma OneToken(s: string, w: string)
    requires s != "" && s[0] != ' ' && s[0] != '\t' && Word(s, 0) == (w, |s|)
    ensures Tokens(s) == [w]
  {
    hide Word;
    assert SkipBlanks(s, 0) == 0 && SkipBlanks(s, |s|) == |s|;
    NoArgs(s, |s|, 15);
    ArgsFirst(s, 0, 0, w, 16);
  }

  lemma PlainStart(a: string, rest: string)
    requires Plain(a) && rest != "" && rest[0] != ' ' && rest[0] != '\t'
    ensures var s := a + rest; s != "" && s[0] != ' ' && s[0] != '\t' && Here(s, 0, a) && Here(s, |a|, rest)
  {
    assert (a + rest)[0] == if a == "" then rest[0] else a[0];
  }

  lemma OneHere(s: string, i: nat, c: char)
    requires Here(s, i, [c])
    ensures i < |s| && s[i] == c
  {
    HereStart(s, i, [c]);
  }

  /** A quotation at `i`, and what follows it. */
  lemma QuotedWord(s: string, i: nat, q: char, t: string, closed: bool)
    requires (q == '"' || q == '\'') && forall k :: 0 <= k < |t| ==> t[k] != q
    requires Here(s, i, [q]) && Here(s, i + 1, t)
    requires if closed then Here(s, i + 1 + |t|, [q]) else i + 1 + |t| == |s|
    ensures var e := i + 1 + |t| + if closed then 1 else 0;
      e <= |s| && Word(s, i) == (t + Word(s, e).0, Word(s, e).1)
  {
    hide Word, Quoted, Here;
    OneHere(s, i, q);
    HereBound(s, i + 1, t);
    if closed { OneHere(s, i + 1 + |t|, q); }
    QuotedIs(s, i + 1, q, t);
    WordQuoted(s, i, "");
    var e := i + 1 + |t| + if closed then 1 else 0;
    Nothing(t);
    Nothing(Word(s, i).0);
  }

  lemma EscapedWord(s: string, i: nat, c: char)
    requires Here(s, i, "\\") && Here(s, i + 1, [c])
    ensures i + 2 <= |s| && Word(s, i) == ([c] + Word(s, i + 2).0, Word(s, i + 2).1)
  {
    hide Word, Quoted, Here;
    OneHere(s, i, '\\');
    OneHere(s, i + 1, c);
    WordEscaped(s, i, "");
    Nothing([c]);
    Nothing(Word(s, i).0);
  }

  lemma WordOver(s: string)
    ensures Word(s, |s|) == ("", |s|)
  {
    WordEnds(s, |s|);
  }

  lemma FirstCharacter(s: string, a: string, c: char)
    requires Plain(a) && Here(s, 0, a) && Here(s, |a|, [c]) && c != ' ' && c != '\t'
    ensures s != "" && s[0] != ' ' && s[0] != '\t'
  {
    OneHere(s, |a|, c);
    if a != "" { assert s[0 + 0] == a[0]; }
  }

  lemma QuotedLine(s: string, a: string, q: char, t: string, closed: bool)
    requires Plain(a) && (q == '"' || q == '\'') && forall k :: 0 <= k < |t| ==> t[k] != q
    requires Here(s, 0, a) && Here(s, |a|, [q]) && Here(s, |a| + 1, t)
    requires closed ==> Here(s, |a| + 1 + |t|, [q])
    requires |s| == |a| + 1 + |t| + if closed then 1 else 0
    ensures Tokens(s) == [a + t]
  {
    hide Word, Quoted, Here, Plain, Tokens;
    FirstCharacter(s, a, q);
    PlainBegins(s, 0, a);
    QuotedWord(s, |a|, q, t, closed);
    WordOver(s);
    Nothing(t);
    OneToken(s, a + t);
  }

  lemma HereWhole(s: string)
    ensures Here(s, 0, s)
  {
  }

  /** Between quotes of either kind everything but that quote stands for itself, whether they are closed or not. */
  lemma QuotedText(a: string, q: char, t: string, closed: bool)
    requires Plain(a) && (q == '"' || q == '\'') && forall k :: 0 <= k < |t| ==> t[k] != q
    ensures Tokens(a + ([q] + (t + if closed then [q] else ""))) == [a + t]
  {
    hide Here, Plain, Tokens;
    var end := if closed then [q] else "";
    var s := a + ([q] + (t + end));
    HereWhole(s);
    HereParts(s, 0, a, [q] + (t + end));
    HereParts(s, |a|, [q], t + end);
    HereParts(s, |a| + 1, t, end);
    QuotedLine(s, a, q, t, closed);
  }

  lemma EscapedLine(s: string, a: string, c: char, b: string)
    requires Plain(a) && Plain(b) && |s| == |a| + 2 + |b|
    requires Here(s, 0, a) && Here(s, |a|, "\\") && Here(s, |a| + 1, [c]) && Here(s, |a| + 2, b)
    ensures Tokens(s) == [a + ([c] + b)]
  {
    hide Word, Quoted, Here, Plain, Tokens;
    FirstCharacter(s, a, '\\');
    PlainBegins(s, 0, a);
    EscapedWord(s, |a|, c);
    PlainBegins(s, |a| + 2, b);
    WordOver(s);
    Nothing(b);
    OneToken(s, a + ([c] + b));
  }

  /** A backslash outside of quotes takes the next character as it is. */
  lemma EscapedText(a: string, c: char, b: string)
    requires Plain(a) && Plain(b)
    ensures Tokens(a + ("\\" + ([c] + b))) == [a + ([c] + b)]
  {
    hide Here, Plain, Tokens;
    var s := a + ("\\" + ([c] + b));
    HereWhole(s);
    HereParts(s, 0, a, "\\" + ([c] + b));
    HereParts(s, |a|, "\\", [c] + b);
    HereParts(s, |a| + 1, [c], b);
    EscapedLine(s, a, c, b);
  }

  /** At the end of a line it stands for itself. */
  lemma LastBackslash(a: string)
    requires Plain(a)
    ensures Tokens(a + "\\") == [a + "\\"]
  {
    hide Word, Quoted, Here, Plain, Tokens;
    var s := a + "\\";
    PlainStart(a, "\\");
    OneHere(s, |a|, '\\');
    PlainBegins(s, 0, a);
    WordPlain(s, |a|, "");
    WordOver(s);
    Nothing("\\");
    Nothing(Word(s, |a|).0);
    OneToken(s, s);
  }
}
