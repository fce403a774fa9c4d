/** Wildcard matching with one remembered star. */
module Glob {
  import opened Basics

  // ----- pattern tokens -----

  /** A member of a character class: all characters from `lo` to `hi`. */
  datatype Range = Range(lo: char, hi: char)

  datatype Token = Star | Any | Literal(c: char) | Class(negate: bool, members: seq<Range>)

  function Fold(c: char, fold: bool): char {
    if fold && 'A' <= c <= 'Z' then (c as int - 'A' as int + 'a' as int) as char else c
  }

  predicate InRange(r: Range, c: char, fold: bool) {
    Fold(r.lo, fold) <= Fold(c, fold) <= Fold(r.hi, fold)
  }

  predicate AnyIn(members: seq<Range>, c: char, fold: bool) {
    exists i :: 0 <= i < |members| && InRange(members[i], c, fold)
  }

  lemma AnyCons(r: Range, rest: seq<Range>, c: char, fold: bool)
    ensures AnyIn([r] + rest, c, fold) <==> InRange(r, c, fold) || AnyIn(rest, c, fold)
  {
    var all := [r] + rest;
    assert all[0] == r && forall i :: 0 <= i < |rest| ==> all[i + 1] == rest[i];
  }

  /** A token other than a star accepts single characters. */
  predicate Accepts(t: Token, c: char, fold: bool) {
    match t
    case Star => false
    case Any => true
    case Literal(d) => Fold(d, fold) == Fold(c, fold)
    case Class(negate, members) => negate != AnyIn(members, c, fold)
  }

  /** The member of a class body that starts at `i`, and where the next one starts. */
  function MemberAt(body: string, i: nat): (r: (Range, nat))
    requires i < |body|
    ensures i < r.1 <= |body|
  {
    var j := if body[i] == '\\' && i + 1 < |body| then i + 1 else i;
    if j + 2 < |body| && body[j + 1] == '-' then (Range(body[j], body[j + 2]), j + 3)
    else (Range(body[j], body[j]), j + 1)
  }

  /** The members written in a class body: single characters, escaped ones, and ranges. */
  function Members(body: string, i: nat): seq<Range>
    requires i <= |body|
    decreases |body| - i
  {
    if i == |body| then [] else [MemberAt(body, i).0] + Members(body, MemberAt(body, i).1)
  }

  function ClassOf(body: string): Token {
    if body != "" && (body[0] == '!' || body[0] == '^') then Class(true, Members(body, 1))
    else Class(false, Members(body, 0))
  }

  /** Position of the first `]` at or after `i`. */
  function Closing(p: string, i: nat): (r: Option<nat>)
    requires i <= |p|
    ensures r.Some? ==> i <= r.value < |p| && p[r.value] == ']' && forall j :: i <= j < r.value ==> p[j] != ']'
    ensures r.None? ==> forall j :: i <= j < |p| ==> p[j] != ']'
    decreases |p| - i
  {
    if i == |p| then None else if p[i] == ']' then Some(i) else Closing(p, i + 1)
  }

  /** The token that starts at `i`, and where the next one starts. */
  function TokenAt(p: string, i: nat): (r: (Token, nat))
    requires i < |p|
    ensures i < r.1 <= |p|
  {
    if p[i] == '*' then (Star, i + 1)
    else if p[i] == '?' then (Any, i + 1)
    else if p[i] == '[' then
      (match Closing(p, i + 1)
       case Some(j) => (ClassOf(p[i + 1..j]), j + 1)
       case None => (Literal('['), i + 1))
    else if p[i] == '\\' && i + 1 < |p| then (Literal(p[i + 1]), i + 2)
    else (Literal(p[i]), i + 1)
  }

  /** The tokens of the pattern from `i` on. */
  function Tokens(p: string, i: nat): seq<Token>
    requires i <= |p|
    decreases |p| - i
  {
    if i == |p| then [] else [TokenAt(p, i).0] + Tokens(p, TokenAt(p, i).1)
  }

  // ----- matching, as such -----

  /** A star stands for any stretch of text; every other token for one character it accepts. */
  ghost predicate Fits(toks: seq<Token>, text: string, fold: bool)
    decreases |toks|
  {
    if toks == [] then text == ""
    else if toks[0].Star? then exists k :: 0 <= k <= |text| && Fits(toks[1..], text[k..], fold)
    else text != "" && Accepts(toks[0], text[0], fold) && Fits(toks[1..], text[1..], fold)
  }

  ghost predicate NoStar(toks: seq<Token>) {
    forall i :: 0 <= i < |toks| ==> !toks[i].Star?
  }

  /** Tokens without a star consume one character each. */
  lemma {:induction false} FixedPart(toks: seq<Token>, d: nat, text: string, fold: bool)
    requires d <= |toks| && NoStar(toks[..d]) && Fits(toks, text, fold)
    ensures d <= |text| && Fits(toks[d..], text[d..], fold)
  {
    if d > 0 {
      assert toks[..d][0] == toks[0];
      assert toks[1..][..d - 1] == toks[..d][1..];
      FixedPart(toks[1..], d - 1, text[1..], fold);
      assert toks[1..][d - 1..] == toks[d..] && text[1..][d - 1..] == text[d..];
    } else {
      assert toks[0..] == toks && text[0..] == text;
    }
  }

  lemma StarFits(toks: seq<Token>, text: string, k: nat, fold: bool)
    requires toks != [] && toks[0].Star? && k <= |text| && Fits(toks[1..], text[k..], fold)
    ensures Fits(toks, text, fold)
  {
  }

  lemma {:induction false} AllStars(toks: seq<Token>, fold: bool)
    ensures Fits(toks, "", fold) <==> forall i :: 0 <= i < |toks| ==> toks[i].Star?
  {
    if toks != [] {
      AllStars(toks[1..], fold);
      assert toks == [toks[0]] + toks[1..];
      if toks[0].Star? && Fits(toks[1..], "", fold) {
        StarFits(toks, "", 0, fold);
      }
      assert forall k :: 0 <= k <= |""| ==> ""[k..] == "";
    }
  }

  // ----- the code -----

  /** Scans a class body for a member that matches. */
  method ClassMatch(body: string, c: char, fold: bool) returns (matched: bool)
    ensures matched == Accepts(ClassOf(body), c, fold)
  {
    var negate, i := false, 0;
    if |body| > 0 && (body[0] == '!' || body[0] == '^') {
      negate, i := true, 1;
    }
    ghost var all := Members(body, i);
    var found := false;
    while i < |body|
      invariant i <= |body| && AnyIn(all, c, fold) == (found || AnyIn(Members(body, i), c, fold))
      decreases |body| - i
    {
      AnyCons(MemberAt(body, i).0, Members(body, MemberAt(body, i).1), c, fold);
      var lo := body[i];
      if lo == '\\' && i + 1 < |body| {
        i := i + 1;
        lo := body[i];
      }
      if i + 2 < |body| && body[i + 1] == '-' {
        var hi := body[i + 2];
        if Fold(lo, fold) <= Fold(c, fold) <= Fold(hi, fold) {
          found := true;
        }
        i := i + 3;
      } else {
        if Fold(lo, fold) == Fold(c, fold) {
          found := true;
        }
        i := i + 1;
      }
    }
    matched := if negate then !found else found;
  }

  // ----- the greedy matcher -----

  /** The answer so far: the current attempt, or the last star taking more text. */
  ghost predicate Answer(star: Option<(seq<Token>, nat)>, toks: seq<Token>, text: string, t: nat, fold: bool)
    requires t <= |text|
  {
    || Fits(toks, text[t..], fold)
    || (star.Some? && exists k :: star.value.1 < k <= |text| && Fits(star.value.0, text[k..], fold))
  }

  /** The attempt since the last star consumed one character for each of its tokens. */
  ghost predicate Attempt(star: Option<(seq<Token>, nat)>, toks: seq<Token>, t: nat) {
    star.Some? ==>
      && star.value.1 <= t && t - star.value.1 <= |star.value.0|
      && toks == star.value.0[t - star.value.1..] && NoStar(star.value.0[..t - star.value.1])
  }

  /** Once another star is met, the earlier one can be forgotten: the later star reaches all it could. */
  lemma LaterStarSuffices(star: Option<(seq<Token>, nat)>, toks: seq<Token>, text: string, t: nat, fold: bool)
    requires t <= |text| && Attempt(star, toks, t) && toks != [] && toks[0].Star?
    ensures Answer(star, toks, text, t, fold) <==> Answer(Some((toks[1..], t)), toks[1..], text, t, fold)
  {
    var rest := toks[1..];
    if star.Some? {
      var s, d := star.value.0, t - star.value.1;
      forall k | star.value.1 < k <= |text| && Fits(s, text[k..], fold) ensures Fits(toks, text[t..], fold) {
        FixedPart(s, d, text[k..], fold);
        assert text[k..][d..] == text[k + d..];
        var m :| 0 <= m <= |text[k + d..]| && Fits(rest, text[k + d..][m..], fold);
        assert text[k + d..][m..] == text[t..][k + d + m - t..];
        StarFits(toks, text[t..], k + d + m - t, fold);
      }
    }
    StarSplits(toks, text, t, fold);
  }

  /** A star at `t` matches when the rest matches at `t` or later. */
  lemma StarSplits(toks: seq<Token>, text: string, t: nat, fold: bool)
    requires t <= |text| && toks != [] && toks[0].Star?
    ensures Fits(toks, text[t..], fold) <==> exists k :: t <= k <= |text| && Fits(toks[1..], text[k..], fold)
  {
    var rest := toks[1..];
    if Fits(toks, text[t..], fold) {
      var m :| 0 <= m <= |text[t..]| && Fits(rest, text[t..][m..], fold);
      assert text[t..][m..] == text[t + m..];
    }
    forall k | t <= k <= |text| && Fits(rest, text[k..], fold) ensures Fits(toks, text[t..], fold) {
      assert text[t..][k - t..] == text[k..];
      StarFits(toks, text[t..], k - t, fold);
    }
  }

  /** The next token takes the next character. */
  lemma Advance(star: Option<(seq<Token>, nat)>, toks: seq<Token>, text: string, t: nat, fold: bool)
    requires t < |text| && Attempt(star, toks, t) && toks != [] && !toks[0].Star? && Accepts(toks[0], text[t], fold)
    ensures Attempt(star, toks[1..], t + 1)
    ensures Answer(star, toks, text, t, fold) <==> Answer(star, toks[1..], text, t + 1, fold)
  {
    assert text[t..][1..] == text[t + 1..];
    if star.Some? {
      var s, d := star.value.0, t - star.value.1;
      assert s[d] == toks[0] && s[..d + 1] == s[..d] + [toks[0]];
    }
  }

  /** The current attempt has failed; the star takes one more character. */
  lemma Backtrack(star: Option<(seq<Token>, nat)>, toks: seq<Token>, text: string, t: nat, fold: bool)
    requires t < |text| && Attempt(star, toks, t)
    requires toks == [] || (!toks[0].Star? && !Accepts(toks[0], text[t], fold))
    ensures star.None? ==> !Answer(star, toks, text, t, fold)
    ensures star.Some? ==>
      && Attempt(Some((star.value.0, star.value.1 + 1)), star.value.0, star.value.1 + 1)
      && (Answer(star, toks, text, t, fold)
          <==> Answer(Some((star.value.0, star.value.1 + 1)), star.value.0, text, star.value.1 + 1, fold))
  {
    assert !Fits(toks, text[t..], fold);
  }

  lemma TokensAt(p: string, i: nat)
    requires i < |p|
    ensures Tokens(p, i) != [] && Tokens(p, i)[0] == TokenAt(p, i).0 && Tokens(p, i)[1..] == Tokens(p, TokenAt(p, i).1)
  {
  }

  /** Consecutive stars mean what one star means. */
  lemma TwoStars(star: Option<(seq<Token>, nat)>, toks: seq<Token>, text: string, t: nat, fold: bool)
    requires t <= |text| && toks != [] && toks[0].Star?
    ensures Answer(Some((toks, t)), toks, text, t, fold) <==> Answer(Some((toks[1..], t)), toks[1..], text, t, fold)
  {
    assert Attempt(None, toks, t);
    StarSplits(toks, text, t, fold);
    forall k | t < k <= |text| && Fits(toks, text[k..], fold)
      ensures exists m :: t < m <= |text| && Fits(toks[1..], text[m..], fold) {
      StarSplits(toks, text, k, fold);
      var m :| k <= m <= |text| && Fits(toks[1..], text[m..], fold);
    }
  }

  lemma LastStar(text: string, t: nat, fold: bool)
    requires t <= |text|
    ensures Answer(Some(([], t)), [], text, t, fold)
  {
    assert text[|text|..] == "";
    assert Fits([], text[|text|..], fold);
  }

  lemma AtTextEnd(star: Option<(seq<Token>, nat)>, toks: seq<Token>, text: string, fold: bool)
    requires Attempt(star, toks, |text|)
    ensures Answer(star, toks, text, |text|, fold) <==> forall i :: 0 <= i < |toks| ==> toks[i].Star?
  {
    AllStars(toks, fold);
    assert text[|text|..] == "";
    if star.Some? {
      var s, d := star.value.0, |text| - star.value.1;
      forall k | star.value.1 < k <= |text| ensures !Fits(s, text[k..], fold) {
        if Fits(s, text[k..], fold) {
          FixedPart(s, d, text[k..], fold);
        }
      }
    }
  }

  /** One token is tried on one character. */
  method TryToken(pattern: string, p: nat, c: char, fold: bool) returns (next: Option<nat>)
    requires p < |pattern| && pattern[p] != '*'
    ensures next == if Accepts(TokenAt(pattern, p).0, c, fold) then Some(TokenAt(pattern, p).1) else None
  {
    if pattern[p] == '?' {
      return Some(p + 1);
    }
    if pattern[p] == '[' {
      var close := Closing(pattern, p + 1);
      if close.Some? {
        var matched := ClassMatch(pattern[p + 1..close.value], c, fold);
        return if matched then Some(close.value + 1) else None;
      }
      return if Fold('[', fold) == Fold(c, fold) then Some(p + 1) else None;
    }
    var lit := p;
    if pattern[lit] == '\\' && lit + 1 < |pattern| {
      lit := lit + 1;
    }
    next := if Fold(pattern[lit], fold) == Fold(c, fold) then Some(lit + 1) else None;
  }

  /** Matches a whole text, remembering only the last star: the answer is that of trying everything. */
  method GlobMatch(pattern: string, text: string, fold: bool) returns (matched: bool)
    ensures matched <==> Fits(Tokens(pattern, 0), text, fold)
  {
    hide Fits, TokenAt, Accepts;
    var p: nat, t: nat := 0, 0;
    var starP: Option<nat>, starT: nat := None, 0;
    ghost var star: Option<(seq<Token>, nat)> := None;
    assert text[0..] == text;
    while t < |text|
      invariant p <= |pattern| && t <= |text|
      invariant starP.Some? <==> star.Some?
      invariant starP.Some? ==> starP.value <= |pattern| && star == Some((Tokens(pattern, starP.value), starT))
      invariant Attempt(star, Tokens(pattern, p), t)
      invariant Answer(star, Tokens(pattern, p), text, t, fold) <==> Fits(Tokens(pattern, 0), text, fold)
      decreases if starP.Some? then |text| - starT else |text| + 1, |pattern| - p
    {
      if p < |pattern| {
        TokensAt(pattern, p);
      }
      if p < |pattern| && pattern[p] == '*' {
        IsStar(pattern, p);
        LaterStarSuffices(star, Tokens(pattern, p), text, t, fold);
        p := p + 1;
        while p < |pattern| && pattern[p] == '*'
          invariant p <= |pattern| && t < |text|
          invariant Answer(Some((Tokens(pattern, p), t)), Tokens(pattern, p), text, t, fold)
                    <==> Fits(Tokens(pattern, 0), text, fold)
        {
          TokensAt(pattern, p);
          IsStar(pattern, p);
          TwoStars(star, Tokens(pattern, p), text, t, fold);
          p := p + 1;
        }
        if p == |pattern| {
          LastStar(text, t, fold);
          return true;
        }
        starP, starT := Some(p), t;
        star := Some((Tokens(pattern, p), t));
        continue;
      }
      if p < |pattern| {
        IsNoStar(pattern, p);
        var next := TryToken(pattern, p, text[t], fold);
        if next.Some? {
          Advance(star, Tokens(pattern, p), text, t, fold);
          p, t := next.value, t + 1;
          continue;
        }
      }
      Backtrack(star, Tokens(pattern, p), text, t, fold);
      if starP.None? {
        return false;
      }
      starT := starT + 1;
      star := Some((star.value.0, starT));
      t, p := starT, starP.value;
    }
    AtTextEnd(star, Tokens(pattern, p), text, fold);
    OnlyStars(pattern, p);
    while p < |pattern| && pattern[p] == '*'
      invariant p <= |pattern|
      invariant Fits(Tokens(pattern, 0), text, fold) <==> forall j :: p <= j < |pattern| ==> pattern[j] == '*'
    {
      p := p + 1;
    }
    matched := p == |pattern|;
  }

  lemma IsStar(p: string, i: nat)
    requires i < |p| && p[i] == '*'
    ensures TokenAt(p, i) == (Star, i + 1)
  {
  }

  lemma IsNoStar(p: string, i: nat)
    requires i < |p| && p[i] != '*'
    ensures !TokenAt(p, i).0.Star?
  {
  }

  lemma {:induction false} OnlyStars(p: string, i: nat)
    requires i <= |p|
    ensures (forall j :: 0 <= j < |Tokens(p, i)| ==> Tokens(p, i)[j].Star?) <==>
      (forall j :: i <= j < |p| ==> p[j] == '*')
    decreases |p| - i
  {
    if i < |p| {
      TokensAt(p, i);
      if p[i] == '*' {
        OnlyStars(p, i + 1);
        assert Tokens(p, i) == [Star] + Tokens(p, i + 1);
      } else {
        IsNoStar(p, i);
      }
    }
  }
}
