/** Slot names position by position, and which characters they tell apart. */
module FatNameLaws {
  import opened Basics
  import opened FatName

  /** The same character, or one letter in two cases. */
  predicate SameLetter(c: Octet, d: Octet) {
    c == d || ('a' <= c <= 'z' && d as int == c as int - 0x20) || ('a' <= d <= 'z' && c as int == d as int - 0x20)
  }

  lemma UpperTells(c: Octet, d: Octet)
    ensures Upper(c) == Upper(d) <==> SameLetter(c, d)
    ensures Upper(c) as int == if 'a' <= c <= 'z' then c as int - 0x20 else c as int
  {
  }

  lemma FieldAt(s: Text, n: nat, i: nat)
    requires |s| <= n && i < n
    ensures Field(s, n)[i] == if i < |s| then Upper(s[i]) else ' '
  {
    if |s| >= n { TakeAll(s); }
  }

  lemma {:induction false} NoDotStem(s: Text)
    requires '.' !in s
    ensures DotAt(s) == |s|
  {
    if s != [] {
      NoDotStem(s[1..]);
    }
  }

  lemma {:induction false} DotStem(stem: Text, ext: Text)
    requires '.' !in stem
    ensures DotAt(stem + ['.'] + ext) == |stem|
  {
    if stem != [] {
      assert (stem + ['.'] + ext)[1..] == stem[1..] + ['.'] + ext;
      DotStem(stem[1..], ext);
    }
  }

  lemma LastSplits(s: Text)
    requires s != []
    ensures s == s[..|s| - 1] + [s[|s| - 1]] && ['.'] + s == (['.'] + s[..|s| - 1]) + [s[|s| - 1]]
  {
  }

  lemma {:induction false} NoDotsKeeps(s: Text)
    requires '.' !in s
    ensures NoDots(s) == s && NoDots(['.'] + s) == s
  {
    hide NoDots;
    NoDotsNone();
    if s == [] {
      NoDotsMore([], '.');
      assert [] + ['.'] == ['.'] == ['.'] + s;
    } else {
      var init, last := s[..|s| - 1], s[|s| - 1];
      LastSplits(s);
      NoDotsKeeps(init);
      NoDotsMore(init, last);
      NoDotsMore(['.'] + init, last);
    }
  }

  /** The eight characters of the stem and the three of the extension, in capitals, and blanks. */
  lemma SlotPositions(stem: Text, ext: Text, i: nat)
    requires '.' !in stem && '.' !in ext && |stem| <= 8 && |ext| <= 3 && i < 11
    ensures SlotName(stem + ['.'] + ext)[i]
         == if i < |stem| then Upper(stem[i]) else if 8 <= i < 8 + |ext| then Upper(ext[i - 8]) else ' '
    ensures SlotName(stem)[i] == if i < |stem| then Upper(stem[i]) else ' '
  {
    hide Field, DotAt, NoDots;
    var s := stem + ['.'] + ext;
    DotStem(stem, ext);
    NoDotStem(stem);
    assert s[..|stem|] == stem && s[|stem|..] == ['.'] + ext && stem[..|stem|] == stem && stem[|stem|..] == [];
    NoDotsKeeps(ext);
    NoDotsKeeps([]);
    if i < 8 {
      FieldAt(stem, 8, i);
    } else {
      FieldAt(ext, 3, i - 8);
      FieldAt([], 3, i - 8);
    }
  }

  /** Two 8.3 names share a slot exactly when they are the same but for case and a trailing dot. */
  lemma SameSlotUpToCase(a: Text, b: Text)
    requires IsShort(a) && IsShort(b)
    ensures SlotName(a) == SlotName(b)
      <==> |Bare(a)| == |Bare(b)| && forall i :: 0 <= i < |Bare(a)| ==> SameLetter(Bare(a)[i], Bare(b)[i])
  {
    hide IsShort, SlotName, Bare, Upper, SameLetter;
    SameSlotExactlyWhen(a, b);
    var x, y := Bare(a), Bare(b);
    if |x| == |y| {
      forall i | 0 <= i < |x| ensures UpperAll(x)[i] == UpperAll(y)[i] <==> SameLetter(x[i], y[i]) {
        UpperTells(x[i], y[i]);
      }
    }
  }
}
