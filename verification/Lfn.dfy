/** Assembling long file names from VFAT directory slots. */
module Lfn {
  import opened Basics

  const MAX_CHARS: nat := 255
  const MAX_SLOTS: nat := 20
  const PER_SLOT: nat := 13

  /** A raw directory entry, and the 8.3 name of the file it belongs to. */
  type Raw = s: seq<byte> | |s| == 32 witness seq(32, _ => 0)

  type Short = s: seq<byte> | |s| == 11 witness seq(11, _ => 0)

  // ----- the fields of a slot -----

  function Seq(raw: Raw): nat { raw[0] % 0x20 }

  predicate IsLast(raw: Raw) { raw[0] / 0x40 % 2 == 1 }

  predicate IsSlot(raw: Raw) { raw[11] == 0x0F }

  /** Byte offset of the `k`-th of the thirteen 16-bit characters: 1..9, 14..24, 28 and 30. */
  function Offset(k: nat): nat { if k < 5 then 2 * k + 1 else if k < 11 then 2 * k + 4 else 2 * k + 6 }

  function Unit(raw: Raw, k: nat): nat
    requires k < PER_SLOT
  {
    raw[Offset(k)] as int + 0x100 * raw[Offset(k) + 1] as int
  }

  function Shown(unit: nat): char {
    if 0x20 <= unit <= 0x7E then unit as char else '?'
  }

  /** The checksum of a short name: rotate right, add the next byte. */
  function Checksum(short: seq<byte>): byte {
    if short == [] then 0
    else
      var sum := Checksum(short[..|short| - 1]);
      ((if sum % 2 == 1 then 0x80 else 0) + sum / 2 + short[|short| - 1]) % 0x100
  }

  // ----- the builder as a value -----

  /** `seen` is the set of the bits of the mask. */
  datatype Builder = Builder(text: seq<char>, len: nat, endPos: nat, endSeen: bool, checksum: byte,
                             maxSeq: nat, seen: set<nat>, active: bool, valid: bool)

  predicate Shaped(b: Builder) { |b.text| == MAX_CHARS + 1 && b.len <= MAX_CHARS && b.endPos <= PER_SLOT * MAX_SLOTS }

  function Fresh(): Builder {
    Builder(seq(MAX_CHARS + 1, _ => '\0'), 0, 0, false, 0, 0, {}, false, true)
  }

  /** Takes the characters of a slot from the `k`-th on, which goes to position `base + k` of the name. */
  function TakeUnits(b: Builder, raw: Raw, base: nat, k: nat): (r: Builder)
    requires Shaped(b) && k <= PER_SLOT && base + PER_SLOT <= PER_SLOT * MAX_SLOTS
    ensures Shaped(r) && r.maxSeq == b.maxSeq && r.seen == b.seen && r.checksum == b.checksum && r.active == b.active
    decreases PER_SLOT - k
  {
    if k == PER_SLOT then b
    else
      var unit, at := Unit(raw, k), base + k;
      if unit == 0 then
        if !b.endSeen || at < b.endPos then b.(endPos := at, endSeen := true) else b
      else if unit == 0xFFFF then TakeUnits(b, raw, base, k + 1)
      else if at >= MAX_CHARS then b.(valid := false)
      else TakeUnits(WithChar(b, at, Shown(unit)), raw, base, k + 1)
  }

  function WithChar(b: Builder, at: nat, c: char): (r: Builder)
    requires Shaped(b) && at < MAX_CHARS
    ensures Shaped(r)
  {
    b.(text := b.text[at := c], len := if at + 1 > b.len then at + 1 else b.len)
  }

  /** One round of the loop over a slot's characters. */
  lemma TakeOne(b: Builder, raw: Raw, base: nat, k: nat)
    requires Shaped(b) && k < PER_SLOT && base + PER_SLOT <= PER_SLOT * MAX_SLOTS
    ensures TakeUnits(b, raw, base, k)
      == if Unit(raw, k) == 0 then
           if !b.endSeen || base + k < b.endPos then b.(endPos := base + k, endSeen := true) else b
         else if Unit(raw, k) == 0xFFFF then TakeUnits(b, raw, base, k + 1)
         else if base + k >= MAX_CHARS then b.(valid := false)
         else TakeUnits(WithChar(b, base + k, Shown(Unit(raw, k))), raw, base, k + 1)
  {
  }

  lemma TakeNone(b: Builder, raw: Raw, base: nat)
    requires Shaped(b) && base + PER_SLOT <= PER_SLOT * MAX_SLOTS
    ensures TakeUnits(b, raw, base, PER_SLOT) == b
  {
  }

  /** The slot is counted: its checksum compared, its number marked as seen. */
  function Noted(b: Builder, raw: Raw): Builder {
    var sum := if b.seen == {} then raw[13] else b.checksum;
    b.(checksum := sum,
       valid := b.valid && sum == raw[13] && Seq(raw) !in b.seen,
       seen := b.seen + {Seq(raw)})
  }

  function Started(raw: Raw): Builder {
    Fresh().(active := true, maxSeq := Seq(raw))
  }

  /** The effect of feeding a slot. */
  function Fed(b: Builder, raw: Raw): (r: Builder)
    requires Shaped(b)
    ensures Shaped(r)
  {
    var n := Seq(raw);
    if n == 0 || n > MAX_SLOTS then b.(valid := false)
    else
      var c := if IsLast(raw) then Started(raw) else b;
      if !c.active || n > c.maxSeq then c.(valid := false)
      else TakeUnits(Noted(c, raw), raw, (n - 1) * PER_SLOT, 0)
  }

  function AllSeen(b: Builder): bool { forall s :: 1 <= s <= b.maxSeq ==> s in b.seen }

  /** The finished name, when there is one; at most `cap - 1` characters. */
  function Finished(b: Builder, short: Short, cap: nat): Option<string>
    requires Shaped(b)
  {
    if cap == 0 || !b.active || !b.valid || b.maxSeq == 0 || !AllSeen(b) || Checksum(short) != b.checksum then None
    else
      var n := if b.endSeen then b.endPos else b.len;
      var m := if n >= cap then cap - 1 else n;
      if m == 0 then None else Some(Chars(b, m))
  }

  function Chars(b: Builder, n: nat): string
    requires Shaped(b)
  {
    if n <= |b.text| then b.text[..n] else b.text
  }

  // ----- the code -----

  class LfnBuilder {
    const text: array<char>
    var len: nat
    var endPos: nat
    var endSeen: bool
    var checksum: byte
    var maxSeq: nat
    var seen: set<nat>
    var active: bool
    var valid: bool

    ghost predicate Valid()
      reads this, text
    {
      text.Length == MAX_CHARS + 1 && Shaped(View())
    }

    ghost function View(): Builder
      reads this, text
    {
      Builder(text[..], len, endPos, endSeen, checksum, maxSeq, seen, active, valid)
    }

    constructor ()
      ensures Valid() && View() == Fresh() && fresh(text)
    {
      text := new char[MAX_CHARS + 1](_ => '\0');
      len, endPos, endSeen, checksum, maxSeq, seen, active, valid := 0, 0, false, 0, 0, {}, false, true;
      new;
      assert text[..] == Fresh().text;
    }

    method Reset()
      requires Valid()
      modifies this, text
      ensures Valid() && View() == Fresh()
    {
      for i := 0 to text.Length
        invariant forall j :: 0 <= j < i ==> text[j] == '\0'
      {
        text[i] := '\0';
      }
      len, endPos, endSeen, checksum, maxSeq, seen, active, valid := 0, 0, false, 0, 0, {}, false, true;
      assert text[..] == Fresh().text;
    }

    method SetChar(at: nat, c: char)
      requires Valid() && at < MAX_CHARS
      modifies this`len, text
      ensures Valid() && View() == WithChar(old(View()), at, c)
    {
      text[at] := c;
      if at + 1 > len {
        len := at + 1;
      }
      assert text[..] == old(text[..])[at := c];
    }

    /** The loop over the slot's characters. */
    method Take(raw: Raw, base: nat)
      requires Valid() && base + PER_SLOT <= PER_SLOT * MAX_SLOTS
      modifies this, text
      ensures Valid() && View() == TakeUnits(old(View()), raw, base, 0)
    {
      hide Unit, Shown, TakeUnits;
      var k := 0;
      while k < PER_SLOT
        invariant Valid() && k <= PER_SLOT
        invariant TakeUnits(View(), raw, base, k) == TakeUnits(old(View()), raw, base, 0)
      {
        TakeOne(View(), raw, base, k);
        var unit, at := Unit(raw, k), base + k;
        if unit == 0 {
          if !endSeen || at < endPos {
            endPos, endSeen := at, true;
          }
          return;
        }
        if unit != 0xFFFF {
          if at >= MAX_CHARS {
            valid := false;
            return;
          }
          SetChar(at, Shown(unit));
        }
        k := k + 1;
      }
      TakeNone(View(), raw, base);
    }

    /** Feeds one directory entry; false when it is no long-name slot. */
    method AddEntry(raw: Raw) returns (consumed: bool)
      requires Valid()
      modifies this, text
      ensures Valid() && consumed == IsSlot(raw)
      ensures View() == if IsSlot(raw) then Fed(old(View()), raw) else old(View())
    {
      hide TakeUnits;
      if raw[11] != 0x0F {
        return false;
      }
      consumed := true;
      var n := Seq(raw);
      if n == 0 || n > MAX_SLOTS {
        valid := false;
        return;
      }
      if IsLast(raw) {
        Reset();
        active := true;
        maxSeq := n;
      }
      if !active || n > maxSeq {
        valid := false;
        return;
      }
      if seen == {} {
        checksum := raw[13];
      } else if checksum != raw[13] {
        valid := false;
      }
      if n in seen {
        valid := false;
      }
      seen := seen + {n};
      Take(raw, (n - 1) * PER_SLOT);
    }

    method ComputeChecksum(short: Short) returns (sum: byte)
      ensures sum == Checksum(short)
    {
      sum := 0;
      for i := 0 to 11
        invariant sum == Checksum(short[..i])
      {
        sum := ((if sum % 2 == 1 then 0x80 else 0) + sum / 2 + short[i]) % 0x100;
        assert short[..i + 1][..i] == short[..i];
      }
      assert short[..11] == short;
    }

    method Finish(short: Short, cap: nat) returns (name: Option<string>)
      requires Valid()
      ensures name == Finished(View(), short, cap)
    {
      if cap == 0 || !active || !valid || maxSeq == 0 {
        return None;
      }
      var all := true;
      for s := 1 to maxSeq + 1
        invariant all == forall k :: 1 <= k < s ==> k in seen
      {
        all := all && s in seen;
      }
      if !all {
        return None;
      }
      var sum := ComputeChecksum(short);
      if sum != checksum {
        return None;
      }
      var n := if endSeen then endPos else len;
      if n >= cap {
        n := cap - 1;
      }
      if n == 0 {
        return None;
      }
      name := Some(if n <= text.Length then text[..n] else text[..]);
    }
  }

  // ----- when a name comes out -----

  function FedAll(slots: seq<Raw>): (b: Builder)
    ensures Shaped(b)
  {
    if slots == [] then Fresh() else Fed(FedAll(slots[..|slots| - 1]), slots[|slots| - 1])
  }

  predicate Numbered(raw: Raw) { 1 <= Seq(raw) <= MAX_SLOTS }

  /** The last slot that begins a name. */
  function LatestStart(slots: seq<Raw>): (r: Option<nat>)
    ensures r.Some? ==> r.value < |slots| && IsLast(slots[r.value]) && Numbered(slots[r.value])
    ensures r.Some? ==> forall i :: r.value < i < |slots| ==> !(IsLast(slots[i]) && Numbered(slots[i]))
    ensures r.None? ==> forall i :: 0 <= i < |slots| ==> !(IsLast(slots[i]) && Numbered(slots[i]))
  {
    if slots == [] then None
    else
      var n := |slots| - 1;
      if IsLast(slots[n]) && Numbered(slots[n]) then Some(n) else LatestStart(slots[..n])
  }

  /** The slot's characters from the `k`-th to its terminator lie within the longest name; 0xFFFF is no character. */
  predicate FitsFrom(raw: Raw, base: nat, k: nat)
    requires k <= PER_SLOT
    decreases PER_SLOT - k
  {
    k == PER_SLOT || Unit(raw, k) == 0
    || ((Unit(raw, k) == 0xFFFF || base + k < MAX_CHARS) && FitsFrom(raw, base, k + 1))
  }

  predicate InBounds(raw: Raw) { Seq(raw) > 0 && FitsFrom(raw, (Seq(raw) - 1) * PER_SLOT, 0) }

  /** The slots since the start fit together. */
  ghost predicate Coherent(group: seq<Raw>) {
    && group != []
    && (forall i :: 0 <= i < |group| ==>
          1 <= Seq(group[i]) <= Seq(group[0]) && group[i][13] == group[0][13] && InBounds(group[i]))
    && (forall i, j :: 0 <= i < j < |group| ==> Seq(group[i]) != Seq(group[j]))
  }

  ghost predicate Came(group: seq<Raw>, s: nat) { exists i :: 0 <= i < |group| && Seq(group[i]) == s }

  /** Each number from the start's down to 1 was there. */
  ghost predicate Complete(group: seq<Raw>) {
    group != [] && forall s :: 1 <= s <= Seq(group[0]) ==> Came(group, s)
  }

  lemma WithCharKeeps(b: Builder, at: nat, c: char)
    requires Shaped(b) && at < MAX_CHARS
    ensures var r := WithChar(b, at, c);
      && Shaped(r) && r.valid == b.valid && r.len >= at + 1 && r.len >= b.len
      && r.endSeen == b.endSeen && r.endPos == b.endPos
  {
  }

  lemma {:induction false} TakeValid(b: Builder, raw: Raw, base: nat, k: nat)
    requires Shaped(b) && k <= PER_SLOT && base + PER_SLOT <= PER_SLOT * MAX_SLOTS
    ensures TakeUnits(b, raw, base, k).valid <==> b.valid && FitsFrom(raw, base, k)
    decreases PER_SLOT - k
  {
    hide Unit, Shown, TakeUnits, WithChar;
    if k < PER_SLOT {
      TakeOne(b, raw, base, k);
      if Unit(raw, k) == 0xFFFF {
        TakeValid(b, raw, base, k + 1);
      } else if Unit(raw, k) != 0 && base + k < MAX_CHARS {
        TakeValid(WithChar(b, base + k, Shown(Unit(raw, k))), raw, base, k + 1);
        WithCharKeeps(b, base + k, Shown(Unit(raw, k)));
      }
    } else {
      TakeNone(b, raw, base);
    }
  }

  /** The numbers of the group, as far as they do not exceed the start's. */
  ghost function Numbers(group: seq<Raw>): set<nat> {
    set i | 0 <= i < |group| && 1 <= Seq(group[i]) <= Seq(group[0]) :: Seq(group[i])
  }

  /** What the builder knows after a start and the slots behind it. */
  ghost predicate Knows(b: Builder, group: seq<Raw>) {
    && group != [] && Shaped(b) && b.active && b.maxSeq == Seq(group[0]) && b.seen == Numbers(group)
    && b.checksum == group[0][13] && (b.valid <==> Coherent(group))
  }

  lemma KnowsStart(raw: Raw, b: Builder)
    requires Shaped(b) && IsLast(raw) && Numbered(raw)
    ensures Knows(Fed(b, raw), [raw])
  {
    TakeValid(Noted(Started(raw), raw), raw, (Seq(raw) - 1) * PER_SLOT, 0);
    assert Numbers([raw]) == {Seq(raw)};
    hide TakeUnits, InBounds;
  }

  lemma NumbersMore(group: seq<Raw>, raw: Raw)
    requires group != []
    ensures Numbers(group + [raw]) == Numbers(group) + if 1 <= Seq(raw) <= Seq(group[0]) then {Seq(raw)} else {}
  {
    var more := group + [raw];
    assert forall i :: 0 <= i < |group| ==> more[i] == group[i];
    assert more[|group|] == raw;
  }

  lemma CoherentMore(group: seq<Raw>, raw: Raw)
    requires group != []
    ensures Coherent(group + [raw]) <==>
      && Coherent(group) && 1 <= Seq(raw) <= Seq(group[0]) && raw[13] == group[0][13] && InBounds(raw)
      && Seq(raw) !in Numbers(group)
  {
    hide InBounds;
    var more := group + [raw];
    assert forall i :: 0 <= i < |group| ==> more[i] == group[i];
    assert more[|group|] == raw;
  }

  lemma KnowsMore(b: Builder, group: seq<Raw>, raw: Raw)
    requires Knows(b, group) && !(IsLast(raw) && Numbered(raw)) && Seq(group[0]) <= MAX_SLOTS
      && Seq(group[0]) in Numbers(group)
    ensures Knows(Fed(b, raw), group + [raw])
  {
    NumbersMore(group, raw);
    CoherentMore(group, raw);
    hide Coherent, Numbers, InBounds;
    if 1 <= Seq(raw) <= b.maxSeq {
      TakeValid(Noted(b, raw), raw, (Seq(raw) - 1) * PER_SLOT, 0);
    }
    hide TakeUnits;
  }

  lemma NothingFed()
    ensures LatestStart([]).None? && !FedAll([]).active
  {
  }

  lemma LatestOf(slots: seq<Raw>)
    requires slots != []
    ensures var n := |slots| - 1;
      LatestStart(slots) == if IsLast(slots[n]) && Numbered(slots[n]) then Some(n) else LatestStart(slots[..n])
  {
    hide IsLast, Numbered;
  }

  lemma GroupGrows(group: seq<Raw>, b: Builder, raw: Raw)
    requires Knows(b, group) && group != [] && Numbered(group[0]) && !(IsLast(raw) && Numbered(raw))
    ensures Knows(Fed(b, raw), group + [raw])
  {
    hide Fed, IsLast, Coherent;
    assert Seq(group[0]) in Numbers(group);
    KnowsMore(b, group, raw);
  }

  lemma StaysIdle(b: Builder, raw: Raw)
    requires Shaped(b) && !b.active && !(IsLast(raw) && Numbered(raw))
    ensures !Fed(b, raw).active
  {
    hide TakeUnits, Noted;
  }

  /** The builder always knows the slots since the latest start, and nothing of the ones before. */
  lemma {:induction false} AlwaysKnows(slots: seq<Raw>)
    ensures match LatestStart(slots)
            case None => !FedAll(slots).active
            case Some(s) => Knows(FedAll(slots), slots[s..])
  {
    hide FedAll, Knows, IsLast, Numbered, LatestStart;
    if slots == [] {
      NothingFed();
    } else {
      var n := |slots| - 1;
      AlwaysKnows(slots[..n]);
      LatestOf(slots);
      FedSnoc(slots);
      if IsLast(slots[n]) && Numbered(slots[n]) {
        KnowsStart(slots[n], FedAll(slots[..n]));
        assert slots[n..] == [slots[n]];
      } else if LatestStart(slots[..n]).Some? {
        var s := LatestStart(slots[..n]).value;
        SliceSnoc(slots, s);
        GroupGrows(slots[..n][s..], FedAll(slots[..n]), slots[n]);
      } else {
        StaysIdle(FedAll(slots[..n]), slots[n]);
      }
    }
  }

  lemma NumberCame(group: seq<Raw>, s: nat)
    requires group != [] && 1 <= s <= Seq(group[0])
    ensures s in Numbers(group) <==> Came(group, s)
  {
  }

  // ----- the length of the name -----

  /** Some character or terminator is stored. */
  ghost predicate Written(group: seq<Raw>) {
    exists i, k :: 0 <= i < |group| && 0 <= k < PER_SLOT && Unit(group[i], k) != 0xFFFF
  }

  /** The slot of the first characters begins with the terminator. */
  ghost predicate EndsAtOnce(group: seq<Raw>) {
    exists i :: 0 <= i < |group| && Seq(group[i]) == 1 && Unit(group[i], 0) == 0
  }

  /** The builder has met a character or a terminator; the terminator was the very first character. */
  predicate Begun(b: Builder) { b.endSeen || b.len > 0 }

  predicate Blank(b: Builder) { b.endSeen && b.endPos == 0 }

  ghost predicate HasUnit(raw: Raw, k: nat) { exists j :: k <= j < PER_SLOT && Unit(raw, j) != 0xFFFF }

  lemma {:induction false} TakeMeasures(b: Builder, raw: Raw, base: nat, k: nat)
    requires Shaped(b) && k <= PER_SLOT && base + PER_SLOT <= PER_SLOT * MAX_SLOTS && FitsFrom(raw, base, k)
    ensures var r := TakeUnits(b, raw, base, k);
      && (Begun(r) <==> Begun(b) || HasUnit(raw, k))
      && (Blank(r) <==> Blank(b) || (base + k == 0 && k < PER_SLOT && Unit(raw, k) == 0))
    decreases PER_SLOT - k
  {
    hide Unit, Shown, TakeUnits, HasUnit, WithChar;
    if k < PER_SLOT {
      TakeOne(b, raw, base, k);
      HasUnitFrom(raw, k);
      if Unit(raw, k) == 0xFFFF {
        TakeMeasures(b, raw, base, k + 1);
      } else if Unit(raw, k) != 0 {
        WithCharKeeps(b, base + k, Shown(Unit(raw, k)));
        TakeMeasures(WithChar(b, base + k, Shown(Unit(raw, k))), raw, base, k + 1);
      }
    } else {
      TakeNone(b, raw, base);
      HasUnitNone(raw);
    }
  }

  lemma HasUnitNone(raw: Raw)
    ensures !HasUnit(raw, PER_SLOT)
  {
  }

  lemma HasUnitFrom(raw: Raw, k: nat)
    requires k < PER_SLOT
    ensures HasUnit(raw, k) <==> Unit(raw, k) != 0xFFFF || HasUnit(raw, k + 1)
  {
    hide Unit;
  }

  ghost predicate Measured(b: Builder, group: seq<Raw>) {
    (Begun(b) <==> Written(group)) && (Blank(b) <==> EndsAtOnce(group))
  }

  lemma MeasuredMore(group: seq<Raw>, raw: Raw)
    ensures Written(group + [raw]) <==> Written(group) || HasUnit(raw, 0)
    ensures EndsAtOnce(group + [raw]) <==> EndsAtOnce(group) || (Seq(raw) == 1 && Unit(raw, 0) == 0)
  {
    hide Unit, Seq;
    var more := group + [raw];
    assert forall i :: 0 <= i < |group| ==> more[i] == group[i];
    assert more[|group|] == raw;
    if HasUnit(raw, 0) {
      var k :| 0 <= k < PER_SLOT && Unit(raw, k) != 0xFFFF;
      assert Unit(more[|group|], k) != 0xFFFF;
    }
    if Written(group) {
      var i, k :| 0 <= i < |group| && 0 <= k < PER_SLOT && Unit(group[i], k) != 0xFFFF;
      assert Unit(more[i], k) != 0xFFFF;
    }
  }

  /** Feeding a slot that fits what came before. */
  lemma FedMeasures(b: Builder, group: seq<Raw>, raw: Raw)
    requires Shaped(b) && 1 <= Seq(raw) <= MAX_SLOTS && InBounds(raw)
    requires if IsLast(raw) then group == [] else b.active && Seq(raw) <= b.maxSeq && Measured(b, group)
    ensures Measured(Fed(b, raw), group + [raw])
  {
    hide TakeUnits, Unit, HasUnit;
    var c := Noted(if IsLast(raw) then Started(raw) else b, raw);
    TakeMeasures(c, raw, (Seq(raw) - 1) * PER_SLOT, 0);
    MeasuredMore(group, raw);
  }

  lemma FedSnoc(slots: seq<Raw>)
    requires slots != []
    ensures FedAll(slots) == Fed(FedAll(slots[..|slots| - 1]), slots[|slots| - 1])
  {
    hide Fed;
  }

  lemma CoherentOne(raw: Raw)
    requires Coherent([raw])
    ensures 1 <= Seq(raw) && InBounds(raw)
  {
    hide Seq, InBounds;
    assert [raw][0] == raw;
  }

  lemma NumberedSeq(raw: Raw)
    requires Numbered(raw)
    ensures 1 <= Seq(raw) <= MAX_SLOTS
  {
  }

  lemma StartMeasured(slots: seq<Raw>)
    requires LatestStart(slots) == Some(|slots| - 1) && Coherent(slots[|slots| - 1..])
    ensures Measured(FedAll(slots), slots[|slots| - 1..])
  {
    hide InBounds, Measured, Fed, FedAll, Coherent, Seq, IsLast, Numbered, LatestStart;
    var n := |slots| - 1;
    var raw := slots[n];
    assert slots[n..] == [raw] == [] + [raw];
    CoherentOne(raw);
    NumberedSeq(raw);
    FedSnoc(slots);
    FedMeasures(FedAll(slots[..n]), [], raw);
  }

  /** The group that the latest slot belongs to, without it. */
  lemma BeforeLast(slots: seq<Raw>)
    requires LatestStart(slots).Some? && LatestStart(slots).value < |slots| - 1
    requires Coherent(slots[LatestStart(slots).value..])
    ensures var n, s := |slots| - 1, LatestStart(slots).value;
      && LatestStart(slots[..n]) == Some(s) && slots[s..] == slots[..n][s..] + [slots[n]] && Coherent(slots[..n][s..])
      && 1 <= Seq(slots[n]) <= Seq(slots[s]) && InBounds(slots[n]) && !(IsLast(slots[n]) && Numbered(slots[n]))
      && slots[..n][s..] != [] && slots[..n][s..][0] == slots[s] && 1 <= Seq(slots[s]) <= MAX_SLOTS
  {
    hide InBounds, Coherent, Seq, IsLast, Numbered, LatestStart, Numbers;
    var n, s := |slots| - 1, LatestStart(slots).value;
    LatestBefore(slots);
    NumberedSeq(slots[s]);
    SliceSnoc(slots, s);
    CoherentInit(slots[..n][s..], slots[n]);
  }

  lemma SliceSnoc<T>(slots: seq<T>, s: nat)
    requires s < |slots| - 1
    ensures var group := slots[..|slots| - 1][s..];
      group != [] && group[0] == slots[s] && slots[s..] == group + [slots[|slots| - 1]]
  {
  }

  lemma CoherentInit(group: seq<Raw>, raw: Raw)
    requires group != [] && Coherent(group + [raw])
    ensures Coherent(group) && 1 <= Seq(raw) <= Seq(group[0]) && InBounds(raw)
  {
    hide InBounds, Coherent, Seq, Numbers;
    CoherentMore(group, raw);
  }

  lemma LatestBefore(slots: seq<Raw>)
    requires LatestStart(slots).Some? && LatestStart(slots).value < |slots| - 1
    ensures LatestStart(slots[..|slots| - 1]) == LatestStart(slots)
    ensures !(IsLast(slots[|slots| - 1]) && Numbered(slots[|slots| - 1]))
  {
    hide IsLast, Numbered;
  }

  lemma LastMeasured(slots: seq<Raw>)
    requires LatestStart(slots).Some? && LatestStart(slots).value < |slots| - 1
    requires Coherent(slots[LatestStart(slots).value..])
    requires Measured(FedAll(slots[..|slots| - 1]), slots[..|slots| - 1][LatestStart(slots).value..])
    ensures Measured(FedAll(slots), slots[LatestStart(slots).value..])
  {
    hide Coherent, InBounds, Measured, Fed, FedAll, Seq, Numbered, LatestStart, Numbers;
    var n, s := |slots| - 1, LatestStart(slots).value;
    BeforeLast(slots);
    AlwaysKnows(slots[..n]);
    FedSnoc(slots);
    LastNumbered(slots[n]);
    FedMeasures(FedAll(slots[..n]), slots[..n][s..], slots[n]);
  }

  lemma LastNumbered(raw: Raw)
    requires 1 <= Seq(raw) <= MAX_SLOTS
    ensures Numbered(raw)
  {
  }

  lemma {:induction false} AlwaysMeasured(slots: seq<Raw>)
    requires LatestStart(slots).Some? && Coherent(slots[LatestStart(slots).value..])
    ensures Measured(FedAll(slots), slots[LatestStart(slots).value..])
  {
    hide Coherent, Measured, FedAll, LatestStart;
    var n, s := |slots| - 1, LatestStart(slots).value;
    if s == n {
      StartMeasured(slots);
    } else {
      BeforeLast(slots);
      AlwaysMeasured(slots[..n]);
      LastMeasured(slots);
    }
  }

  lemma LengthMeasured(b: Builder)
    ensures (if b.endSeen then b.endPos else b.len) > 0 <==> Begun(b) && !Blank(b)
  {
  }

  /**
   A name comes out exactly when, since the latest start, every number from the start's down to 1 came
   once, all with the checksum of the short name, within bounds, and the name is not empty: something is
   stored, and it is not a terminator in first place.
   */
  lemma FinishesExactlyWhen(slots: seq<Raw>, short: Short, cap: nat)
    requires cap > 1
    ensures Finished(FedAll(slots), short, cap).Some? <==>
      && LatestStart(slots).Some?
      && var group := slots[LatestStart(slots).value..];
      Coherent(group) && Complete(group) && group[0][13] == Checksum(short) && Written(group) && !EndsAtOnce(group)
  {
    hide FedAll, LatestStart, Coherent, Came, Checksum, Chars, Written, EndsAtOnce;
    AlwaysKnows(slots);
    var b := FedAll(slots);
    if LatestStart(slots).Some? {
      var group := slots[LatestStart(slots).value..];
      forall s | 1 <= s <= b.maxSeq ensures s in b.seen <==> Came(group, s) {
        NumberCame(group, s);
      }
      if Coherent(group) {
        AlwaysMeasured(slots);
      }
      LengthMeasured(b);
    }
  }

  // ----- writing a name into slots -----

  predicate Printable(name: string) { forall i :: 0 <= i < |name| ==> 0x20 <= name[i] as int <= 0x7E }

  /** Slots that a name of this length takes. */
  function SlotCount(length: nat): nat { (length + PER_SLOT - 1) / PER_SLOT }

  /** Character `p` as it is stored: the name, a terminator, then padding. */
  function UnitOf(name: string, p: nat): (u: nat)
    requires Printable(name)
    ensures u < 0x1_0000
  {
    if p < |name| then name[p] as int else if p == |name| then 0 else 0xFFFF
  }

  /** Which character byte `i` of a slot belongs to. */
  function UnitIndex(i: nat): nat
    requires 1 <= i < 32 && i != 11 && i != 12 && i != 13 && i != 26 && i != 27
  {
    if i < 11 then (i - 1) / 2 else if i < 26 then (i - 4) / 2 else (i - 6) / 2
  }

  /** Byte `i` of slot number `s` of a name that takes `n` slots. */
  function SlotByte(name: string, sum: byte, s: nat, n: nat, i: nat): byte
    requires Printable(name) && 1 <= s <= n <= MAX_SLOTS && i < 32
  {
    if i == 0 then s + (if s == n then 0x40 else 0)
    else if i == 11 then 0x0F
    else if i == 12 || i == 26 || i == 27 then 0
    else if i == 13 then sum
    else
      var u := UnitOf(name, (s - 1) * PER_SLOT + UnitIndex(i));
      if i == Offset(UnitIndex(i)) then u % 0x100 else u / 0x100
  }

  function SlotOf(name: string, sum: byte, s: nat, n: nat): Raw
    requires Printable(name) && 1 <= s <= n <= MAX_SLOTS
  {
    seq(32, i requires 0 <= i < 32 => SlotByte(name, sum, s, n, i))
  }

  /** The slots in the order in which a directory holds them: the last part of the name first. */
  function Encoded(name: string, sum: byte): (slots: seq<Raw>)
    requires Printable(name) && SlotCount(|name|) <= MAX_SLOTS
    ensures |slots| == SlotCount(|name|)
    ensures forall i :: 0 <= i < |slots| ==> slots[i] == SlotOf(name, sum, |slots| - i, |slots|)
  {
    var n := SlotCount(|name|);
    seq(n, i requires 0 <= i < n => SlotOf(name, sum, n - i, n))
  }

  lemma SlotFields(name: string, sum: byte, s: nat, n: nat)
    requires Printable(name) && 1 <= s <= n <= MAX_SLOTS
    ensures var raw := SlotOf(name, sum, s, n);
      IsSlot(raw) && Seq(raw) == s && raw[13] == sum && (IsLast(raw) <==> s == n)
  {
  }

  lemma SlotUnit(name: string, sum: byte, s: nat, n: nat, k: nat)
    requires Printable(name) && 1 <= s <= n <= MAX_SLOTS && k < PER_SLOT
    ensures Unit(SlotOf(name, sum, s, n), k) == UnitOf(name, (s - 1) * PER_SLOT + k)
  {
    hide UnitOf;
    var i := Offset(k);
    assert UnitIndex(i) == k && UnitIndex(i + 1) == k;
    assert SlotOf(name, sum, s, n)[i] == SlotByte(name, sum, s, n, i);
    assert SlotOf(name, sum, s, n)[i + 1] == SlotByte(name, sum, s, n, i + 1);
  }

  lemma ShownPrintable(name: string, p: nat)
    requires Printable(name) && p < |name|
    ensures UnitOf(name, p) != 0 && UnitOf(name, p) != 0xFFFF && Shown(UnitOf(name, p)) == name[p]
  {
  }

  /** What taking the characters of a part of the name, from the `k`-th on, makes of the builder. */
  ghost predicate TakesTo(b: Builder, r: Builder, name: string, base: nat, k: nat)
    requires Shaped(b) && Shaped(r)
  {
    var e := if base + PER_SLOT < |name| then base + PER_SLOT else |name|;
    && r.valid == b.valid
    && (forall p :: 0 <= p <= MAX_CHARS ==>
          r.text[p] == if p < |name| && base + k <= p < e then name[p] else b.text[p])
    && r.len == (if base + k < e && b.len < e then e else b.len)
    && (if |name| < base + PER_SLOT then
          r.endSeen && r.endPos == if b.endSeen && b.endPos <= |name| then b.endPos else |name|
        else r.endSeen == b.endSeen && r.endPos == b.endPos)
  }

  lemma TakesMore(b: Builder, r: Builder, name: string, base: nat, k: nat)
    requires Shaped(b) && Shaped(r) && |name| <= MAX_CHARS && k < PER_SLOT && base + k < |name|
    requires TakesTo(WithChar(b, base + k, name[base + k]), r, name, base, k + 1)
    ensures TakesTo(b, r, name, base, k)
  {
  }

  lemma TakesLast(b: Builder, name: string, base: nat, k: nat)
    requires Shaped(b) && |name| <= MAX_CHARS && k <= PER_SLOT && base + PER_SLOT <= PER_SLOT * MAX_SLOTS
    requires base + k == |name| || (k == PER_SLOT && base + k <= |name|)
    ensures k == PER_SLOT ==> TakesTo(b, b, name, base, k)
    ensures k < PER_SLOT ==>
      TakesTo(b, if !b.endSeen || base + k < b.endPos then b.(endPos := base + k, endSeen := true) else b, name, base,
              k)
  {
  }

  /** What the characters of a slot do to the builder. */
  lemma {:induction false} Takes(b: Builder, raw: Raw, name: string, base: nat, k: nat)
    requires Shaped(b) && k <= PER_SLOT && base + PER_SLOT <= PER_SLOT * MAX_SLOTS
    requires Printable(name) && |name| <= MAX_CHARS && base + k <= |name|
    requires forall j :: 0 <= j < PER_SLOT ==> Unit(raw, j) == UnitOf(name, base + j)
    ensures TakesTo(b, TakeUnits(b, raw, base, k), name, base, k)
    decreases PER_SLOT - k
  {
    hide Unit, Shown, UnitOf, TakesTo, TakeUnits, WithChar, Printable, Shaped;
    if k < PER_SLOT {
      TakeOne(b, raw, base, k);
    } else {
      TakeNone(b, raw, base);
    }
    if k < PER_SLOT && base + k < |name| {
      ShownPrintable(name, base + k);
      var b' := WithChar(b, base + k, name[base + k]);
      Takes(b', raw, name, base, k + 1);
      TakesMore(b, TakeUnits(b', raw, base, k + 1), name, base, k);
    } else {
      if k < PER_SLOT { UnitEnds(name); }
      TakesLast(b, name, base, k);
    }
  }

  lemma UnitEnds(name: string)
    requires Printable(name)
    ensures UnitOf(name, |name|) == 0
  {
  }

  /** The numbers from `s` to `n`. */
  function From(s: nat, n: nat): (r: set<nat>)
    ensures forall i :: i in r <==> s <= i <= n
    decreases n + 1 - s
  {
    if s > n then {} else {s} + From(s + 1, n)
  }

  /** The builder after the slots of a name from its last part down to number `s`. */
  ghost predicate Assembled(b: Builder, name: string, sum: byte, s: nat) {
    var n := SlotCount(|name|);
    && Shaped(b) && b.active && b.valid && b.maxSeq == n && b.checksum == sum && b.len == |name| <= MAX_CHARS
    && b.seen == From(s, n) && 1 <= s <= n + 1
    && (if |name| < n * PER_SLOT then b.endSeen && b.endPos == |name| else !b.endSeen)
    && forall p :: (s - 1) * PER_SLOT <= p < |name| ==> b.text[p] == name[p]
  }

  lemma CountBounds(length: nat)
    requires 1 <= length <= MAX_CHARS
    ensures var n := SlotCount(length); 1 <= n <= MAX_SLOTS && (n - 1) * PER_SLOT < length <= n * PER_SLOT
  {
  }

  /** Slot number `s` of the name, as the builder meets it. */
  lemma SlotHere(name: string, sum: byte, s: nat)
    requires Printable(name) && 1 <= |name| <= MAX_CHARS && 1 <= s <= SlotCount(|name|)
    ensures SlotCount(|name|) <= MAX_SLOTS && (s - 1) * PER_SLOT < |name|
    ensures s < SlotCount(|name|) ==> s * PER_SLOT < |name|
    ensures var raw := SlotOf(name, sum, s, SlotCount(|name|));
      && Seq(raw) == s && raw[13] == sum && (IsLast(raw) <==> s == SlotCount(|name|))
      && forall j :: 0 <= j < PER_SLOT ==> Unit(raw, j) == UnitOf(name, (s - 1) * PER_SLOT + j)
  {
    CountBounds(|name|);
    var n := SlotCount(|name|);
    SlotFields(name, sum, s, n);
    forall j | 0 <= j < PER_SLOT ensures Unit(SlotOf(name, sum, s, n), j) == UnitOf(name, (s - 1) * PER_SLOT + j) {
      SlotUnit(name, sum, s, n, j);
    }
  }

  lemma FirstSlot(b: Builder, name: string, sum: byte)
    requires Shaped(b) && Printable(name) && 1 <= |name| <= MAX_CHARS
    ensures 1 <= SlotCount(|name|) <= MAX_SLOTS
    ensures var n := SlotCount(|name|); Assembled(Fed(b, SlotOf(name, sum, n, n)), name, sum, n)
  {
    CountBounds(|name|);
    var n := SlotCount(|name|);
    var raw := SlotOf(name, sum, n, n);
    SlotHere(name, sum, n);
    hide Unit, UnitOf, SlotOf, SlotCount, Seq, IsLast, Printable;
    var c := Noted(Started(raw), raw);
    assert Fed(b, raw) == TakeUnits(c, raw, (n - 1) * PER_SLOT, 0);
    Takes(c, raw, name, (n - 1) * PER_SLOT, 0);
    hide TakeUnits, Fed;
    assert {} + {n} == From(n, n);
  }

  lemma NextSlot(b: Builder, name: string, sum: byte, s: nat)
    requires Printable(name) && 1 <= |name| <= MAX_CHARS && Assembled(b, name, sum, s + 1) && 1 <= s < SlotCount(|name|)
    ensures SlotCount(|name|) <= MAX_SLOTS
    ensures Assembled(Fed(b, SlotOf(name, sum, s, SlotCount(|name|))), name, sum, s)
  {
    CountBounds(|name|);
    var n := SlotCount(|name|);
    var raw := SlotOf(name, sum, s, n);
    SlotHere(name, sum, s);
    hide Unit, UnitOf, SlotOf, SlotCount, Seq, IsLast, Printable;
    assert n in b.seen && s !in b.seen;
    var c := Noted(b, raw);
    assert Fed(b, raw) == TakeUnits(c, raw, (s - 1) * PER_SLOT, 0);
    Takes(c, raw, name, (s - 1) * PER_SLOT, 0);
    hide TakeUnits, Fed;
    assert b.seen + {s} == From(s, n);
  }

  /** The `m`-th slot that is fed is the one numbered from the end. */
  lemma EncodedAt(name: string, sum: byte, m: nat)
    requires Printable(name) && 1 <= |name| <= MAX_CHARS && 1 <= m <= SlotCount(|name|) <= MAX_SLOTS
    ensures var n, slots := SlotCount(|name|), Encoded(name, sum);
      FedAll(slots[..m]) == Fed(FedAll(slots[..m - 1]), SlotOf(name, sum, n - m + 1, n))
  {
    hide SlotOf, Fed, SlotCount, Printable;
    var n, slots := SlotCount(|name|), Encoded(name, sum);
    assert slots[..m][..m - 1] == slots[..m - 1] && slots[..m][m - 1] == SlotOf(name, sum, n - m + 1, n);
  }

  lemma {:induction false} FeedsName(name: string, sum: byte, m: nat)
    requires Printable(name) && 1 <= |name| <= MAX_CHARS && 1 <= m <= SlotCount(|name|)
    ensures SlotCount(|name|) <= MAX_SLOTS
    ensures Assembled(FedAll(Encoded(name, sum)[..m]), name, sum, SlotCount(|name|) - m + 1)
  {
    hide SlotOf, Fed, SlotCount, Assembled, Encoded, Printable, FedAll;
    CountBounds(|name|);
    EncodedAt(name, sum, m);
    var n, slots := SlotCount(|name|), Encoded(name, sum);
    var before := slots[..m - 1];
    if m == 1 {
      FirstSlot(FedAll(before), name, sum);
    } else {
      FeedsName(name, sum, m - 1);
      NextSlot(FedAll(before), name, sum, n - m + 1);
    }
  }

  /** Any printable name of 1 to 255 characters survives being written into slots and read back. */
  lemma NameRoundTrip(name: string, short: Short, cap: nat)
    requires Printable(name) && 1 <= |name| <= MAX_CHARS && cap > |name|
    ensures SlotCount(|name|) <= MAX_SLOTS
    ensures Finished(FedAll(Encoded(name, Checksum(short))), short, cap) == Some(name)
  {
    hide FedAll, Encoded, Checksum, SlotCount;
    CountBounds(|name|);
    var n, slots := SlotCount(|name|), Encoded(name, Checksum(short));
    assert slots[..n] == slots;
    FeedsName(name, Checksum(short), n);
    var b := FedAll(slots);
    assert b.text[..|name|] == name;
  }
}
