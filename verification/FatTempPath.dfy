/** The text of the temporary path that fat_write_atomic builds denotes what the replacement is proved about. */
module FatTempPath {
  import opened Basics
  import opened FatLayout
  import opened FatName
  import opened FatPath
  import FatAtomic

  const TEMP: Text := "_ATOMIC.TMP"

  /** The text fat_write_atomic builds: the temporary name behind the last slash. */
  function TempText(p: Text): Text
    requires p != []
  {
    p[..LastSlash(p)] + ['/'] + TEMP
  }

  lemma TempParts()
    ensures UpperAll("_ATOMIC") + Blanks(1) == "_ATOMIC " && UpperAll("TMP") + Blanks(0) == "TMP"
    ensures TEMP == "_ATOMIC" + (['.'] + "TMP") && "_ATOMIC " + "TMP" == "_ATOMIC TMP"
  {
  }

  lemma TempSlot()
    ensures IsShort(TEMP) && SlotName(TEMP) == "_ATOMIC TMP"
  {
    hide IsShort, SlotName, UpperAll, Blanks;
    TempParts();
    var stem, ext: Text := "_ATOMIC", "TMP";
    assert |stem| == 7 && |ext| == 3;
    SlotOfParts(stem, ext);
  }

  lemma TempNameOf()
    ensures NameOf(TEMP) == Some(FatAtomic.TempName())
  {
    hide IsShort, SlotName;
    TempSlot();
    assert TEMP[0] == '_';
    assert Code("_ATOMIC TMP") == FatAtomic.TempName();
  }

  lemma TempComps(p: Text)
    requires p != [] && Comps(p) != [] && AllNamed(Comps(p)) && Usual(p)
    ensures TempText(p) != [] && Usual(TempText(p))
    ensures Comps(TempText(p)) == Comps(p)[..|Comps(p)| - 1] + [TEMP]
  {
    hide NameOf, CompsFrom;
    var comps, k, q := Comps(p), LastSlash(p), TempText(p);
    CutAtLast(p);
    CompsCat(q, p[..k], TEMP, 0);
    OneComp(TEMP);
    LastSlashIs(q, k);
    assert q[k] == '/';
  }

  /** That text denotes the temporary name in the directory of the target. */
  lemma TempTextIsTempPath(p: Text)
    requires p != [] && Comps(p) != [] && AllNamed(Comps(p)) && Usual(p)
    ensures TempText(p) != [] && AllNamed(Comps(TempText(p))) && Usual(TempText(p))
    ensures NamesOf(Comps(TempText(p))) == FatAtomic.TempPath(NamesOf(Comps(p)))
  {
    hide NameOf, Comps, Usual, TempText;
    TempComps(p);
    TempNameOf();
    assert TEMP != [];
    LastNamed(Comps(p), TEMP);
  }

  lemma LastNamed(comps: seq<Text>, last: Text)
    requires comps != [] && AllNamed(comps) && NameOf(last).Some?
    ensures var q := comps[..|comps| - 1] + [last];
      AllNamed(q) && NamesOf(q) == NamesOf(comps)[..|comps| - 1] + [NameOf(last).value]
  {
    hide NameOf;
    var q := comps[..|comps| - 1] + [last];
    assert forall i :: 0 <= i < |q| - 1 ==> q[i] == comps[i];
  }
}
