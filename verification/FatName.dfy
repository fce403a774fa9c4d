/** 8.3 names: what a path component becomes in a directory slot, and back. */
module FatName {
  import opened Basics

  /** C strings hold bytes other than zero. */
  type Octet = c: char | 0 < c as int < 256 witness 'A'

  type Text = seq<Octet>

  // ----- what a component becomes -----

  function Upper(c: Octet): Octet {
    if 'a' <= c <= 'z' then c - 'a' + 'A' else c
  }

  function UpperAll(s: Text): (r: Text)
    ensures |r| == |s| && forall i :: 0 <= i < |s| ==> r[i] == Upper(s[i])
  {
    seq(|s|, i requires 0 <= i < |s| => Upper(s[i]))
  }

  /** The position of the first dot, or the length. */
  function DotAt(s: Text): (i: nat)
    ensures i <= |s| && '.' !in s[..i] && (i < |s| ==> s[i] == '.')
  {
    if s == [] || s[0] == '.' then 0
    else
      assert s[..1 + DotAt(s[1..])] == [s[0]] + s[1..][..DotAt(s[1..])];
      1 + DotAt(s[1..])
  }

  function Stem(s: Text): Text { s[..DotAt(s)] }

  function NoDots(s: Text): (r: Text)
    ensures '.' !in r && |r| <= |s|
  {
    if s == [] then [] else NoDots(s[..|s| - 1]) + if s[|s| - 1] == '.' then [] else [s[|s| - 1]]
  }

  /** Everything behind the first dot; further dots are dropped. */
  function Ext(s: Text): Text { NoDots(s[DotAt(s)..]) }

  function Blanks(n: nat): (r: Text)
    ensures |r| == n && forall i :: 0 <= i < n ==> r[i] == ' '
  {
    seq(n, _ => ' ')
  }

  /** The first `n` characters in upper case, padded with blanks. */
  function Field(s: Text, n: nat): (r: Text)
    ensures |r| == n
  {
    if |s| >= n then UpperAll(s[..n]) else UpperAll(s) + Blanks(n - |s|)
  }

  /** The eleven characters of the slot. */
  function SlotName(s: Text): (r: Text)
    ensures |r| == 11
  {
    Field(Stem(s), 8) + Field(Ext(s), 3)
  }

  /** Nothing is cut off. */
  predicate NameFits(s: Text) { |Stem(s)| <= 8 && |Ext(s)| <= 3 }

  /** No blanks, at most one dot, and neither part too long. */
  predicate ShortSoFar(s: Text) {
    ' ' !in s && OneDot(s) && NameFits(s)
  }

  predicate OneDot(s: Text) { forall i, j :: 0 <= i < j < |s| && s[i] == '.' ==> s[j] != '.' }

  /** The component is an 8.3 name. */
  predicate IsShort(s: Text) { ShortSoFar(s) && Stem(s) != [] }

  /** A dot without an extension leaves no trace in the slot. */
  function Bare(s: Text): Text {
    if s != [] && s[|s| - 1] == '.' then s[..|s| - 1] else s
  }

  // ----- what a slot is shown as -----

  /** The characters before the first blank. */
  function Word(s: Text): (r: Text)
    ensures r <= s && ' ' !in r && (|r| < |s| ==> s[|r|] == ' ')
  {
    if s == [] || s[0] == ' ' then [] else [s[0]] + Word(s[1..])
  }

  function Format(raw: Text): Text
    requires |raw| == 11
  {
    Word(raw[..8]) + if raw[8..] == Blanks(3) then [] else ['.'] + Word(raw[8..])
  }

  // ----- fat_make_83 -----

  lemma {:induction false} DotAtMore(s: Text, c: Octet)
    ensures DotAt(s + [c]) == if DotAt(s) < |s| then DotAt(s) else if c == '.' then |s| else |s| + 1
  {
    if s != [] && s[0] != '.' {
      assert (s + [c])[1..] == s[1..] + [c];
      DotAtMore(s[1..], c);
    }
  }

  lemma TakeAll(s: Text)
    ensures s[..|s|] == s
  {
  }

  lemma TakePart(s: Text, c: Octet, d: nat)
    requires d <= |s|
    ensures (s + [c])[..d] == s[..d]
  {
  }

  /** Reading one more character. */
  lemma StemMore(s: Text, c: Octet)
    ensures Stem(s + [c]) == if DotAt(s) < |s| || c == '.' then Stem(s) else Stem(s) + [c]
  {
    hide DotAt;
    DotAtMore(s, c);
    if DotAt(s) == |s| && c != '.' {
      TakeAll(s);
      TakeAll(s + [c]);
    } else {
      TakePart(s, c, DotAt(s));
    }
  }

  lemma DropMore(s: Text, c: Octet, d: nat)
    requires d <= |s|
    ensures (s + [c])[d..] == s[d..] + [c]
  {
  }

  lemma DropEnd(s: Text)
    ensures s[|s|..] == []
  {
  }

  lemma ExtMore(s: Text, c: Octet)
    ensures Ext(s + [c]) == if DotAt(s) < |s| && c != '.' then Ext(s) + [c] else Ext(s)
  {
    hide DotAt, NoDots;
    DotAtMore(s, c);
    var d := DotAt(s);
    if d < |s| {
      DropMore(s, c, d);
      NoDotsMore(s[d..], c);
    } else {
      NoDotsNone();
      NoDotsMore([], c);
      DropEnd(s);
      if c == '.' {
        DropMore(s, c, |s|);
        assert [] + [c] == [c];
      } else {
        DropEnd(s + [c]);
      }
    }
  }

  lemma NoDotsNone()
    ensures NoDots([]) == []
  {
  }

  lemma NoDotsMore(s: Text, c: Octet)
    ensures NoDots(s + [c]) == if c == '.' then NoDots(s) else NoDots(s) + [c]
  {
    assert (s + [c])[..|s|] == s;
  }

  lemma FieldMore(s: Text, c: Octet, n: nat)
    ensures Field(s + [c], n) == if |s| < n then Field(s, n)[|s| := Upper(c)] else Field(s, n)
  {
    if |s| >= n {
      assert (s + [c])[..n] == s[..n];
    } else if |s| + 1 == n {
      assert (s + [c])[..n] == s + [c];
    }
  }

  lemma NoneYet()
    ensures DotAt([]) == 0 && Stem([]) == [] && Ext([]) == [] && Field([], 8) == Blanks(8) && Field([], 3) == Blanks(3)
  {
    assert UpperAll([]) == [];
  }

  /** What the loop holds after reading `done`. */
  ghost predicate Filled(done: Text, name: seq<Octet>, ext: seq<Octet>, ni: nat, ei: nat, inExt: bool, cut: bool) {
    && inExt == (DotAt(done) < |done|)
    && ni == (if |Stem(done)| < 8 then |Stem(done)| else 8)
    && ei == (if |Ext(done)| < 3 then |Ext(done)| else 3)
    && cut == (|Stem(done)| > 8 || |Ext(done)| > 3)
    && name == Field(Stem(done), 8) && ext == Field(Ext(done), 3)
  }

  lemma FilledNone()
    ensures Filled([], Blanks(8), Blanks(3), 0, 0, false, false)
  {
    hide Field, Stem, Ext, DotAt;
    NoneYet();
  }

  lemma FilledMore(done: Text, c: Octet, name: seq<Octet>, ext: seq<Octet>, ni: nat, ei: nat, inExt: bool, cut: bool)
    requires Filled(done, name, ext, ni, ei, inExt, cut)
    ensures |name| == 8 && |ext| == 3 && ni <= 8 && ei <= 3
    ensures c == '.' ==> Filled(done + [c], name, ext, ni, ei, true, cut)
    ensures c != '.' && inExt && ei < 3 ==> Filled(done + [c], name, ext[ei := Upper(c)], ni, ei + 1, inExt, cut)
    ensures c != '.' && inExt && ei == 3 ==> Filled(done + [c], name, ext, ni, ei, inExt, true)
    ensures c != '.' && !inExt && ni < 8 ==> Filled(done + [c], name[ni := Upper(c)], ext, ni + 1, ei, inExt, cut)
    ensures c != '.' && !inExt && ni == 8 ==> Filled(done + [c], name, ext, ni, ei, inExt, true)
  {
    hide Field, Stem, Ext, DotAt, Upper;
    DotAtMore(done, c);
    StemMore(done, c);
    ExtMore(done, c);
    FieldMore(Stem(done), c, 8);
    FieldMore(Ext(done), c, 3);
  }

  lemma FilledAll(done: Text, name: seq<Octet>, ext: seq<Octet>, ni: nat, ei: nat, inExt: bool, cut: bool)
    requires Filled(done, name, ext, ni, ei, inExt, cut)
    ensures name + ext == SlotName(done) && (!cut <==> NameFits(done))
  {
    hide Field, Stem, Ext, DotAt;
  }

  /** Fills the two name fields of a slot; false when characters did not fit. */
  method Make83(component: Text, name8: array<Octet>, ext3: array<Octet>) returns (whole: bool)
    requires name8.Length == 8 && ext3.Length == 3 && name8 != ext3
    modifies name8, ext3
    ensures name8[..] + ext3[..] == SlotName(component)
    ensures whole == NameFits(component)
  {
    hide Field, Stem, Ext, DotAt, Upper, Filled;
    forall i | 0 <= i < 8 { name8[i] := ' '; }
    forall i | 0 <= i < 3 { ext3[i] := ' '; }
    assert name8[..] == Blanks(8) && ext3[..] == Blanks(3);
    var ni, ei := 0, 0;
    var inExt, truncated := false, false;
    FilledNone();
    for p := 0 to |component|
      invariant ni <= 8 && ei <= 3
      invariant Filled(component[..p], name8[..], ext3[..], ni, ei, inExt, truncated)
    {
      var c := component[p];
      assert component[..p + 1] == component[..p] + [c];
      ghost var name, ext := name8[..], ext3[..];
      FilledMore(component[..p], c, name, ext, ni, ei, inExt, truncated);
      if c == '.' {
        inExt := true;
      } else if inExt {
        if ei < 3 {
          ext3[ei] := Upper(c);
          assert ext3[..] == ext[ei := Upper(c)];
          ei := ei + 1;
        } else {
          truncated := true;
        }
      } else {
        if ni < 8 {
          name8[ni] := Upper(c);
          assert name8[..] == name[ni := Upper(c)];
          ni := ni + 1;
        } else {
          truncated := true;
        }
      }
    }
    assert component[..|component|] == component;
    FilledAll(component, name8[..], ext3[..], ni, ei, inExt, truncated);
    whole := !truncated;
  }

  // ----- component_is_83 -----

  lemma SoFarBack(s: Text, c: Octet)
    ensures ShortSoFar(s + [c]) <==>
      && ShortSoFar(s) && c != ' ' && (c == '.' ==> DotAt(s) == |s|)
      && (c != '.' ==> if DotAt(s) < |s| then |Ext(s)| < 3 else |Stem(s)| < 8)
  {
    hide Stem, Ext;
    StemMore(s, c);
    ExtMore(s, c);
    LastChar(s, c);
    if DotAt(s) < |s| { assert s[DotAt(s)] == '.'; }
    if OneDot(s) && (c == '.' ==> DotAt(s) == |s|) {
      assert c == '.' ==> s[..|s|] == s;
    }
  }

  lemma LastChar(s: Text, c: Octet)
    ensures forall i :: 0 <= i < |s| ==> (s + [c])[i] == s[i]
    ensures (s + [c])[|s|] == c
  {
  }

  lemma {:induction false} SoFarPrefix(s: Text, k: nat)
    requires k <= |s| && ShortSoFar(s)
    ensures ShortSoFar(s[..k])
    decreases |s| - k
  {
    if k < |s| {
      SoFarPrefix(s, k + 1);
      assert s[..k + 1] == s[..k] + [s[k]];
      SoFarBack(s[..k], s[k]);
    } else {
      assert s[..k] == s;
    }
  }

  lemma NoneShort()
    ensures ShortSoFar([])
  {
    NoneYet();
  }

  method ComponentIs83(component: Text) returns (short: bool)
    ensures short == IsShort(component)
  {
    hide Stem, Ext, DotAt, ShortSoFar;
    var nameLen, extLen := 0, 0;
    var dot := false;
    ghost var done: Text := [];
    NoneYet();
    NoneShort();
    for p := 0 to |component|
      invariant done == component[..p] && ShortSoFar(done)
      invariant dot == (DotAt(done) < |done|)
      invariant nameLen == |Stem(done)| && extLen == |Ext(done)|
    {
      var c := component[p];
      DotAtMore(done, c);
      StemMore(done, c);
      ExtMore(done, c);
      SoFarBack(done, c);
      assert component[..p + 1] == done + [c];
      done := done + [c];
      if ShortSoFar(component) { SoFarPrefix(component, p + 1); }
      if c == ' ' {
        return false;
      }
      if c == '.' {
        if dot {
          return false;
        }
        dot := true;
      } else if dot {
        extLen := extLen + 1;
        if extLen > 3 {
          return false;
        }
      } else {
        nameLen := nameLen + 1;
        if nameLen > 8 {
          return false;
        }
      }
    }
    assert done == component;
    short := nameLen > 0;
  }

  // ----- format_83 -----

  lemma {:induction false} WordIs(s: Text, i: nat)
    requires i <= |s| && ' ' !in s[..i] && (i < |s| ==> s[i] == ' ')
    ensures Word(s) == s[..i]
  {
    if i > 0 {
      assert s[..i] == [s[0]] + s[1..][..i - 1];
      WordIs(s[1..], i - 1);
    }
  }

  /** Copies a field up to its first blank behind what `out` already holds. */
  method CopyField(field: Text, out: array<char>, len0: nat) returns (len: nat)
    requires len0 + |field| <= out.Length
    modifies out
    ensures len0 <= len <= len0 + |field| && out[..len] == old(out[..len0]) + Word(field)
  {
    len := len0;
    var i := 0;
    while i < |field| && field[i] != ' '
      invariant i <= |field| && len == len0 + i && ' ' !in field[..i]
      invariant out[..len] == old(out[..len0]) + field[..i]
    {
      out[len] := field[i];
      assert field[..i + 1] == field[..i] + [field[i]];
      i, len := i + 1, len + 1;
    }
    WordIs(field, i);
  }

  method AllBlank(field: Text) returns (blank: bool)
    ensures blank == (field == Blanks(|field|))
  {
    for i := 0 to |field|
      invariant forall k :: 0 <= k < i ==> field[k] == ' '
    {
      if field[i] != ' ' {
        return false;
      }
    }
    blank := true;
  }

  method PutChar(out: array<char>, len: nat, c: char)
    requires len < out.Length
    modifies out
    ensures out[..len] == old(out[..len]) && out[len] == c && out[..len + 1] == old(out[..len]) + [c]
  {
    out[len] := c;
  }

  /** Writes the shown name and a terminating zero byte. */
  method Format83(name8: Text, ext3: Text, out: array<char>) returns (len: nat)
    requires |name8| == 8 && |ext3| == 3 && out.Length >= 13
    modifies out
    ensures len <= 12 && out[..len] == Format(name8 + ext3) && out[len] == '\0'
  {
    hide Word, Blanks, Format;
    FormatIs(name8, ext3);
    len := CopyField(name8, out, 0);
    var blank := AllBlank(ext3);
    if !blank {
      PutChar(out, len, '.');
      len := CopyField(ext3, out, len + 1);
    }
    PutChar(out, len, '\0');
  }

  lemma FormatIs(name8: Text, ext3: Text)
    requires |name8| == 8 && |ext3| == 3
    ensures Format(name8 + ext3) == if ext3 == Blanks(3) then [] + Word(name8)
      else [] + Word(name8) + ['.'] + Word(ext3)
  {
    assert (name8 + ext3)[..8] == name8 && (name8 + ext3)[8..] == ext3;
  }

  // ----- names that share a slot -----

  lemma UpperFacts(s: Text)
    ensures ' ' in UpperAll(s) <==> ' ' in s
    ensures '.' in UpperAll(s) <==> '.' in s
    ensures UpperAll(UpperAll(s)) == UpperAll(s)
    ensures forall c :: c in UpperAll(s) ==> !('a' <= c <= 'z')
  {
    forall i | 0 <= i < |s| ensures UpperAll(s)[i] == Upper(s[i]) && s[i] in s {}
  }

  lemma AfterDot(s: Text, d: nat)
    requires OneDot(s) && d < |s| && s[d] == '.'
    ensures '.' !in s[d + 1..]
  {
    var t := s[d + 1..];
    assert forall j :: 0 <= j < |t| ==> t[j] == s[d + 1 + j];
  }

  /** The parts of an 8.3 name make up the whole name. */
  lemma ShortParts(s: Text)
    requires OneDot(s)
    ensures s == Stem(s) + if DotAt(s) < |s| then ['.'] + Ext(s) else []
    ensures DotAt(s) == |s| ==> Ext(s) == []
  {
    hide DotAt, NoDots, OneDot;
    var d := DotAt(s);
    NoDotsNone();
    if d < |s| {
      AfterDot(s, d);
      NoDotsFirst(s[d + 1..]);
      DotSplit(s, d);
    } else {
      assert s[d..] == [] && s[..d] == s;
    }
  }

  lemma DotSplit(s: Text, d: nat)
    requires d < |s| && s[d] == '.'
    ensures s[d..] == ['.'] + s[d + 1..] && s == s[..d] + (['.'] + s[d + 1..])
  {
  }

  lemma {:induction false} NoDotsFirst(s: Text)
    requires '.' !in s
    ensures NoDots(['.'] + s) == s
  {
    if s == [] {
      assert ['.'] + s == [] + ['.'];
      NoDotsMore([], '.');
      NoDotsNone();
    } else {
      var t, c := s[..|s| - 1], s[|s| - 1];
      NoDotsFirst(t);
      assert s == t + [c] && ['.'] + s == (['.'] + t) + [c];
      NoDotsMore(['.'] + t, c);
    }
  }

  lemma {:induction false} WordOfPadded(t: Text, n: nat)
    requires ' ' !in t
    ensures Word(t + Blanks(n)) == t
  {
    var s := t + Blanks(n);
    assert s[..|t|] == t;
    WordIs(s, |t|);
  }

  /** A part without blanks that fits is shown as it is, in upper case. */
  lemma FieldWord(t: Text, n: nat)
    requires ' ' !in t && |t| <= n
    ensures Word(Field(t, n)) == UpperAll(t)
    ensures Field(t, n) == UpperAll(t) + Blanks(n - |t|)
    ensures Field(t, n) == Blanks(n) <==> t == []
  {
    UpperFacts(t);
    assert t[..|t|] == t && UpperAll(t) + Blanks(0) == UpperAll(t);
    WordOfPadded(UpperAll(t), n - |t|);
    if t != [] {
      assert UpperAll(t)[0] in UpperAll(t);
    }
  }

  /** Listing a directory shows the name a file was created under, in upper case. */
  lemma FormatOfSlot(s: Text)
    requires IsShort(s)
    ensures Format(SlotName(s)) == UpperAll(Bare(s))
  {
    hide Stem, Ext, DotAt, Field, Format, Word, NoDots;
    hide UpperAll, Bare;
    var stem, ext := Stem(s), Ext(s);
    ShortParts(s);
    PartsInside(s);
    FieldWord(stem, 8);
    FieldWord(ext, 3);
    FormatIs(Field(stem, 8), Field(ext, 3));
    BareParts(s, stem, ext);
  }

  lemma BareParts(s: Text, stem: Text, ext: Text)
    requires s == stem + (['.'] + ext) || (s == stem && ext == [])
    requires '.' !in stem && '.' !in ext
    ensures UpperAll(Bare(s)) == if ext == [] then [] + UpperAll(stem) else [] + UpperAll(stem) + ['.'] + UpperAll(ext)
  {
    if ext == [] {
      if s == stem {
        assert s != [] ==> s[|s| - 1] in stem;
      } else {
        assert s[..|s| - 1] == stem;
      }
    } else {
      assert s[|s| - 1] == ext[|ext| - 1] && ext[|ext| - 1] in ext;
      UpperCat(stem, ['.'] + ext);
      UpperCat(['.'], ext);
      assert UpperAll(['.']) == ['.'];
    }
  }

  lemma UpperCat(s: Text, t: Text)
    ensures UpperAll(s + t) == UpperAll(s) + UpperAll(t)
  {
  }

  lemma PartsInside(s: Text)
    requires OneDot(s)
    ensures ' ' !in s ==> ' ' !in Stem(s) && ' ' !in Ext(s)
    ensures '.' !in Stem(s) && '.' !in Ext(s)
  {
    ShortParts(s);
    var stem, ext := Stem(s), Ext(s);
    hide Stem, Ext;
    forall c | c in stem || c in ext ensures c in s {}
  }

  /** Neither case nor a trailing dot makes a difference to the slot. */
  lemma SlotOfBare(s: Text)
    requires IsShort(s)
    ensures SlotName(UpperAll(Bare(s))) == SlotName(s)
  {
    var t := Bare(s);
    if t != s {
      assert s == t + ['.'];
      StemMore(t, '.');
      ExtMore(t, '.');
    }
    SlotUpper(t);
  }

  lemma {:induction false} DotUpper(s: Text)
    ensures DotAt(UpperAll(s)) == DotAt(s)
  {
    if s != [] && s[0] != '.' {
      assert UpperAll(s)[1..] == UpperAll(s[1..]);
      DotUpper(s[1..]);
    }
  }

  lemma {:induction false} NoDotsUpper(s: Text)
    ensures NoDots(UpperAll(s)) == UpperAll(NoDots(s))
  {
    if s == [] {
      assert UpperAll(s) == [];
    } else {
      var t, c := s[..|s| - 1], s[|s| - 1];
      NoDotsUpper(t);
      assert s == t + [c];
      UpperOne(c);
      UpperCat(t, [c]);
      UpperCat(NoDots(t), [c]);
      NoDotsMore(t, c);
      NoDotsMore(UpperAll(t), Upper(c));
      hide NoDots, UpperAll;
    }
  }

  lemma UpperOne(c: Octet)
    ensures UpperAll([c]) == [Upper(c)] && (Upper(c) == '.' <==> c == '.')
  {
  }

  lemma SlotUpper(s: Text)
    ensures SlotName(UpperAll(s)) == SlotName(s)
  {
    var d := DotAt(s);
    DotUpper(s);
    NoDotsUpper(s[d..]);
    assert UpperAll(s)[..d] == UpperAll(s[..d]) && UpperAll(s)[d..] == UpperAll(s[d..]);
    FieldUpper(Stem(s), 8);
    FieldUpper(Ext(s), 3);
  }

  lemma FieldUpper(s: Text, n: nat)
    ensures Field(UpperAll(s), n) == Field(s, n)
  {
    UpperFacts(s);
    if |s| >= n {
      UpperFacts(s[..n]);
      assert UpperAll(s)[..n] == UpperAll(s[..n]);
    }
  }

  /** Two 8.3 names denote the same slot exactly when they differ in case or in a trailing dot only. */
  lemma SameSlotExactlyWhen(a: Text, b: Text)
    requires IsShort(a) && IsShort(b)
    ensures SlotName(a) == SlotName(b) <==> UpperAll(Bare(a)) == UpperAll(Bare(b))
  {
    FormatOfSlot(a);
    FormatOfSlot(b);
    SlotOfBare(a);
    SlotOfBare(b);
  }

  /** Without its first character a name gets another slot: its stem is shorter. */
  lemma TailSlot(s: Text)
    requires IsShort(s)
    ensures SlotName(s[1..]) != SlotName(s)
  {
    hide Field, Ext;
    var k := |Stem(s)| - 1;
    TailStem(s);
    FieldAt(Stem(s), 8, k);
    FieldAt(Stem(s[1..]), 8, k);
    assert Stem(s)[k] in s;
    assert SlotName(s)[k] == Field(Stem(s), 8)[k] && SlotName(s[1..])[k] == Field(Stem(s[1..]), 8)[k];
  }

  lemma TailStem(s: Text)
    requires IsShort(s)
    ensures 1 <= |Stem(s)| <= 8 && |Stem(s[1..])| == |Stem(s)| - 1
  {
    assert s[0] != '.';
  }

  /** Position `k` of a padded field. */
  lemma FieldAt(s: Text, n: nat, k: nat)
    requires k < n
    ensures Field(s, n)[k] == if k < |s| then Upper(s[k]) else ' '
  {
  }

  /** The slot of any component, 8.3 or not, begins with no dot. */
  lemma SlotNoDot(s: Text)
    ensures SlotName(s)[0] != '.'
  {
    hide Ext, Upper;
    FieldAt(Stem(s), 8, 0);
    UpperNoDot(s);
  }

  lemma UpperNoDot(s: Text)
    ensures Stem(s) != [] ==> Upper(Stem(s)[0]) != '.'
  {
  }

  /** The slot of an 8.3 name does not look free, and not like "." or "..". */
  lemma SlotStart(s: Text)
    requires IsShort(s)
    ensures SlotName(s)[0] == Upper(s[0]) && SlotName(s)[0] != '.' && SlotName(s)[0] != ' '
  {
    var stem := Stem(s);
    assert stem[0] == s[0] && s[0] in s;
    if |stem| == 8 { assert stem[..8] == stem; }
  }

  lemma PartsOf(stem: Text, ext: Text)
    requires '.' !in stem && '.' !in ext
    ensures var s := stem + (['.'] + ext); Stem(s) == stem && Ext(s) == ext && OneDot(s)
  {
    hide DotAt, NoDots;
    var s, t := stem + (['.'] + ext), ['.'] + ext;
    DotAtFirst(stem, t);
    NoDotsFirst(ext);
    assert s[..|stem|] == stem && s[|stem|..] == t;
    forall i | 0 <= i < |s| && i != |stem| ensures s[i] != '.' {
      if i < |stem| { assert s[i] in stem; } else { assert s[i] in ext; }
    }
  }

  /** The slot of a name given by its stem and its extension. */
  lemma SlotOfParts(stem: Text, ext: Text)
    requires 1 <= |stem| <= 8 && |ext| <= 3
    requires '.' !in stem && ' ' !in stem && '.' !in ext && ' ' !in ext
    ensures var s := stem + (['.'] + ext);
      && IsShort(s)
      && SlotName(s) == UpperAll(stem) + Blanks(8 - |stem|) + (UpperAll(ext) + Blanks(3 - |ext|))
  {
    hide Stem, Ext, Field, OneDot;
    PartsOf(stem, ext);
    FieldWord(stem, 8);
    FieldWord(ext, 3);
  }

  // ----- what is shown can be opened -----

  /** Blanks only at the end. */
  predicate Padded(field: Text) { field == Word(field) + Blanks(|field| - |Word(field)|) }

  /** A slot as the driver itself writes them. */
  predicate CleanSlot(raw: Text)
    requires |raw| == 11
  {
    '.' !in raw && Padded(raw[..8]) && Padded(raw[8..]) && forall c :: c in raw ==> !('a' <= c <= 'z')
  }

  lemma UpperIsSame(s: Text)
    requires forall c :: c in s ==> !('a' <= c <= 'z')
    ensures UpperAll(s) == s
  {
    forall i | 0 <= i < |s| ensures UpperAll(s)[i] == s[i] { assert s[i] in s; }
  }

  lemma {:induction false} DotAtFirst(s: Text, t: Text)
    requires '.' !in s && (t == [] || t[0] == '.')
    ensures DotAt(s + t) == |s|
  {
    if s == [] {
      assert s + t == t;
    } else {
      assert (s + t)[1..] == s[1..] + t && (s + t)[0] == s[0] && s[0] in s;
      DotAtFirst(s[1..], t);
    }
  }

  /** The parts of a shown name, when the fields hold no dots. */
  lemma FormatParts(raw: Text)
    requires |raw| == 11 && '.' !in raw
    ensures Stem(Format(raw)) == Word(raw[..8]) && Ext(Format(raw)) == Word(raw[8..])
  {
    var w, x := Word(raw[..8]), Word(raw[8..]);
    FormatIs(raw[..8], raw[8..]);
    assert raw == raw[..8] + raw[8..];
    forall c | c in w || c in x ensures c in raw {}
    NoDotsNone();
    if raw[8..] == Blanks(3) {
      DotAtFirst(w, []);
      assert w + [] == w && w[|w|..] == [] && w[..|w|] == w;
      assert x == [];
    } else {
      DotAtFirst(w, ['.'] + x);
      assert Format(raw) == w + (['.'] + x);
      assert (w + (['.'] + x))[..|w|] == w && (w + (['.'] + x))[|w|..] == ['.'] + x;
      NoDotsFirst(x);
    }
  }

  lemma CleanField(field: Text, n: nat)
    requires |field| == n && Padded(field) && forall c :: c in field ==> !('a' <= c <= 'z')
    ensures Field(Word(field), n) == field
  {
    var w := Word(field);
    forall c | c in w ensures c in field {}
    UpperIsSame(w);
    FieldWord(w, n);
  }

  lemma FieldIsClean(s: Text, n: nat)
    requires ' ' !in s && '.' !in s
    ensures Padded(Field(s, n)) && '.' !in Field(s, n) && forall c :: c in Field(s, n) ==> !('a' <= c <= 'z')
  {
    var t := if |s| >= n then s[..n] else s;
    forall c | c in t ensures c in s {}
    UpperFacts(t);
    FieldWord(t, n);
    assert Field(s, n) == Field(t, n) by { assert t[..|t|] == t; UpperFacts(t); }
  }

  /** A file can be opened by the name it is listed under exactly when its slot is clean. */
  lemma ListedOpensExactlyWhen(raw: Text)
    requires |raw| == 11
    ensures SlotName(Format(raw)) == raw <==> CleanSlot(raw)
  {
    hide Format, Field, Padded, Stem, Ext;
    var f := Format(raw);
    InHalves(raw);
    if CleanSlot(raw) {
      FormatParts(raw);
      CleanField(raw[..8], 8);
      CleanField(raw[8..], 3);
    }
    if SlotName(f) == raw {
      FormatNoBlanks(raw);
      FieldIsClean(Stem(f), 8);
      FieldIsClean(Ext(f), 3);
      assert raw[..8] == Field(Stem(f), 8) && raw[8..] == Field(Ext(f), 3);
    }
  }

  lemma InHalves(raw: Text)
    requires |raw| == 11
    ensures raw == raw[..8] + raw[8..] && forall c :: c in raw <==> c in raw[..8] || c in raw[8..]
  {
    assert raw == raw[..8] + raw[8..];
  }

  lemma FormatNoBlanks(raw: Text)
    requires |raw| == 11
    ensures var f := Format(raw); ' ' !in Stem(f) && ' ' !in Ext(f) && '.' !in Stem(f) && '.' !in Ext(f)
  {
    var f := Format(raw);
    assert ' ' !in f;
    NoDotsInside(f[DotAt(f)..]);
  }

  lemma {:induction false} NoDotsInside(s: Text)
    ensures forall c :: c in NoDots(s) ==> c in s
  {
    if s != [] {
      NoDotsInside(s[..|s| - 1]);
    }
  }
}
