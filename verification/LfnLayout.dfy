/** Where a long name's characters lie in its slots, and what the checksum does to the bits. */
module LfnLayout {
  import opened Basics
  import opened Lfn

  /** Byte offsets of a slot's thirteen characters. */
  const OFFSETS: seq<nat> := [1, 3, 5, 7, 9, 14, 16, 18, 20, 22, 24, 28, 30]

  lemma OffsetIs(k: nat)
    requires k < 13
    ensures Offset(k) == OFFSETS[k]
  {
  }

  /** The code of character `p`, and behind the last one a terminator, and then padding. */
  function Code(name: string, p: nat): nat {
    if p < |name| then name[p] as int else if p == |name| then 0 else 0xFFFF
  }

  lemma HighByte(u: nat, low: nat, high: nat)
    requires low < 0x100 && high < 0x100 && low + 0x100 * high == u
    ensures low == u % 0x100 && high == u / 0x100
  {
  }

  lemma UnitBytes(raw: Raw, k: nat)
    requires k < 13
    ensures OFFSETS[k] + 1 < 32
    ensures raw[OFFSETS[k]] == Unit(raw, k) % 0x100 && raw[OFFSETS[k] + 1] == Unit(raw, k) / 0x100
  {
    OffsetIs(k);
    HighByte(Unit(raw, k), raw[OFFSETS[k]], raw[OFFSETS[k] + 1]);
  }

  /**
   The slots of a name on the card: the last part of the name comes first and is marked, parts are numbered
   from 1, and each holds thirteen characters of two bytes, low byte first.
   */
  lemma SlotsOnCard(name: string, sum: byte, i: nat, k: nat)
    requires Printable(name) && 1 <= |name| <= 255 && i < (|name| + 12) / 13 && k < 13
    ensures var n := (|name| + 12) / 13;
      && n <= 20 && |Encoded(name, sum)| == n
      && var raw, u := Encoded(name, sum)[i], Code(name, 13 * (n - i - 1) + k);
      && raw[0] == (if i == 0 then n + 0x40 else n - i) && raw[11] == 0x0F && raw[13] == sum
      && raw[12] == 0 && raw[26] == 0 && raw[27] == 0
      && OFFSETS[k] + 1 < 32 && raw[OFFSETS[k]] == u % 0x100 && raw[OFFSETS[k] + 1] == u / 0x100
  {
    hide Offset, Unit;
    CountBounds(|name|);
    var n := SlotCount(|name|);
    var raw := Encoded(name, sum)[i];
    SlotUnit(name, sum, n - i, n, k);
    UnitBytes(raw, k);
  }

  // ----- the checksum -----

  /** Bit `k` of a number, counted from the lowest. */
  predicate BitSet(n: nat, k: nat) {
    if k == 0 then n % 2 == 1 else BitSet(n / 2, k - 1)
  }

  /** The bits of `r` are those of `s`, one place lower each, with the lowest at the top of eight. */
  ghost predicate RotatedRight(s: byte, r: byte) {
    (forall k :: 0 <= k < 7 ==> (BitSet(r, k) <==> BitSet(s, k + 1))) && (BitSet(r, 7) <==> BitSet(s, 0))
  }

  function Rotated(s: byte): byte { (if s % 2 == 1 then 0x80 else 0) + s / 2 }

  /** A bit above a number's own bits leaves them alone. */
  lemma {:induction false} BitBelow(n: nat, top: nat, m: nat, k: nat)
    requires k < m && top == Doubled(m)
    ensures BitSet(n + top, k) <==> BitSet(n, k)
    decreases m
  {
    if k > 0 {
      assert (n + top) / 2 == n / 2 + Doubled(m - 1);
      BitBelow(n / 2, Doubled(m - 1), m - 1, k - 1);
    }
  }

  function Doubled(m: nat): nat { if m == 0 then 1 else 2 * Doubled(m - 1) }

  lemma {:induction false} BitAtTop(n: nat, m: nat)
    requires n < Doubled(m)
    ensures BitSet(n + Doubled(m), m) && !BitSet(n, m)
    decreases m
  {
    if m > 0 {
      assert (n + Doubled(m)) / 2 == n / 2 + Doubled(m - 1);
      BitAtTop(n / 2, m - 1);
    }
  }

  lemma RotatesRight(s: byte)
    ensures RotatedRight(s, Rotated(s))
  {
    hide BitSet;
    EightBits();
    BitAtTop(s / 2, 7);
    forall k | 0 <= k < 7 ensures BitSet(Rotated(s), k) <==> BitSet(s, k + 1) {
      NextBit(s, k);
      BitBelow(s / 2, 0x80, 7, k);
    }
    LowestBit(s);
  }

  lemma EightBits()
    ensures Doubled(7) == 0x80
  {
    assert Doubled(3) == 8 && Doubled(5) == 32;
  }

  lemma NextBit(n: nat, k: nat)
    ensures BitSet(n, k + 1) == BitSet(n / 2, k)
  {
  }

  lemma LowestBit(n: nat)
    ensures BitSet(n, 0) <==> n % 2 == 1
  {
  }

  /** Each byte of the short name is added to the sum so far, rotated right within its eight bits. */
  lemma ChecksumRotates(short: seq<byte>, b: byte)
    ensures Checksum([]) == 0
    ensures exists r: byte :: RotatedRight(Checksum(short), r) && Checksum(short + [b]) == (r + b) % 0x100
  {
    hide RotatedRight;
    assert (short + [b])[..|short|] == short;
    RotatesRight(Checksum(short));
  }

  /** A sum is rotated to one byte only. */
  lemma OneRotation(s: byte, r: byte, r': byte)
    requires RotatedRight(s, r) && RotatedRight(s, r')
    ensures r == r'
  {
    forall k | 0 <= k < 8 ensures BitSet(r, k) == BitSet(r', k) {
      if k < 7 { assert BitSet(r, k) == BitSet(s, k + 1) == BitSet(r', k); }
    }
    EightBits();
    BitsDecide(r, r', 8);
  }

  lemma {:induction false} BitsDecide(a: nat, b: nat, m: nat)
    requires a < Doubled(m) && b < Doubled(m) && forall k :: 0 <= k < m ==> BitSet(a, k) == BitSet(b, k)
    ensures a == b
    decreases m
  {
    if m > 0 {
      assert BitSet(a, 0) == BitSet(b, 0);
      forall k | 0 <= k < m - 1 ensures BitSet(a / 2, k) == BitSet(b / 2, k) {
        assert BitSet(a, k + 1) == BitSet(b, k + 1);
      }
      BitsDecide(a / 2, b / 2, m - 1);
    }
  }
}
