/** The CRC is the remainder of long division by the generator x^16 + x^12 + x^5 + 1. */
module CrcDivision {
  import opened Crc16

  predicate Set(c: bv16, mask: bv16) { c & mask != 0 }

  /** The `i`-th of the sixteen coefficients of a register, from the highest on. */
  predicate Nth(c: bv16, i: nat) {
    if i < 8 then
      if i < 4 then
        if i == 0 then Set(c, 0x8000) else if i == 1 then Set(c, 0x4000) else if i == 2 then Set(c, 0x2000)
        else Set(c, 0x1000)
      else if i == 4 then Set(c, 0x0800) else if i == 5 then Set(c, 0x0400) else if i == 6 then Set(c, 0x0200)
      else Set(c, 0x0100)
    else if i < 12 then
      if i == 8 then Set(c, 0x0080) else if i == 9 then Set(c, 0x0040) else if i == 10 then Set(c, 0x0020)
      else Set(c, 0x0010)
    else if i == 12 then Set(c, 0x0008) else if i == 13 then Set(c, 0x0004) else if i == 14 then Set(c, 0x0002)
    else i == 15 && Set(c, 0x0001)
  }

  function Digits(c: bv16): (s: seq<bool>)
    ensures |s| == 16 && forall i :: 0 <= i < 16 ==> s[i] == Nth(c, i)
  {
    seq(16, i requires 0 <= i < 16 => Nth(c, i))
  }

  function Zeros(n: nat): (s: seq<bool>)
    ensures |s| == n && forall i :: 0 <= i < n ==> !s[i]
  {
    seq(n, _ => false)
  }

  /** Whether the generator, put under the first coefficient, has one under the `i`-th: x^16, x^12, x^5 and 1. */
  predicate UnderGenerator(i: nat) { i == 16 - 16 || i == 16 - 12 || i == 16 - 5 || i == 16 }

  /** One round of long division: the generator is taken off when the first coefficient is set, which clears it. */
  function Reduced(p: seq<bool>): (r: seq<bool>)
    requires |p| > 16
    ensures |r| == |p| - 1 && forall i :: 0 <= i < |r| ==> r[i] == (p[i + 1] != (p[0] && UnderGenerator(i + 1)))
  {
    seq(|p| - 1, i requires 0 <= i < |p| - 1 => p[i + 1] != (p[0] && UnderGenerator(i + 1)))
  }

  /** The remainder of a polynomial, given by its coefficients. */
  function Remainder(p: seq<bool>): (r: seq<bool>)
    requires |p| >= 16
    ensures |r| == 16
    decreases |p|
  {
    if |p| == 16 then p else Remainder(Reduced(p))
  }

  /** What is left to divide: the register is added to the next sixteen coefficients. */
  function Pending(c: bv16, rest: seq<bool>): (p: seq<bool>)
    requires |rest| >= 16
    ensures |p| == |rest| && forall i :: 0 <= i < |p| ==> p[i] == (rest[i] != (i < 16 && Digits(c)[i]))
  {
    var d := Digits(c);
    seq(|rest|, i requires 0 <= i < |rest| => rest[i] != (i < 16 && d[i]))
  }

  predicate SameBelow(c: bv16, x: bv16) { x & 0x7FFF == c & 0x7FFF }

  lemma KeepsBelow(c: bv16)
    ensures (c ^ 0x8000) & 0x7FFF == c & 0x7FFF
  {
  }

  lemma FlipsTop(c: bv16)
    ensures (c ^ 0x8000) & 0x8000 != 0 <==> c & 0x8000 == 0
  {
  }

  lemma FirstDigit(c: bv16, bit: bool)
    ensures var x := Xor(c, Mask(bit)); (Set(x, 0x8000) <==> Set(c, 0x8000) != bit) && SameBelow(c, x)
  {
    if bit {
      KeepsBelow(c);
      FlipsTop(c);
    } else {
      hide Xor, Set;
      XorZero(c);
    }
  }

  lemma UpperDigits(c: bv16, x: bv16)
    requires SameBelow(c, x)
    ensures var s, top := Shift(x), Set(x, 0x8000);
      && (Set(s, 0x8000) <==> Set(c, 0x4000)) && (Set(s, 0x4000) <==> Set(c, 0x2000))
      && (Set(s, 0x2000) <==> Set(c, 0x1000)) && (Set(s, 0x1000) <==> (Set(c, 0x0800)) != top)
      && (Set(s, 0x0800) <==> Set(c, 0x0400)) && (Set(s, 0x0400) <==> Set(c, 0x0200))
      && (Set(s, 0x0200) <==> Set(c, 0x0100)) && (Set(s, 0x0100) <==> Set(c, 0x0080))
  {
  }

  lemma LowerDigits(c: bv16, x: bv16)
    requires SameBelow(c, x)
    ensures var s, top := Shift(x), Set(x, 0x8000);
      && (Set(s, 0x0080) <==> Set(c, 0x0040)) && (Set(s, 0x0040) <==> Set(c, 0x0020))
      && (Set(s, 0x0020) <==> (Set(c, 0x0010)) != top) && (Set(s, 0x0010) <==> Set(c, 0x0008))
      && (Set(s, 0x0008) <==> Set(c, 0x0004)) && (Set(s, 0x0004) <==> Set(c, 0x0002))
      && (Set(s, 0x0002) <==> Set(c, 0x0001)) && (Set(s, 0x0001) <==> top)
  {
  }

  lemma NthMoves(c: bv16, x: bv16, i: nat)
    requires SameBelow(c, x) && i < 16
    ensures Nth(Shift(x), i) == ((i < 15 && Nth(c, i + 1)) != (Set(x, 0x8000) && UnderGenerator(i + 1)))
  {
    hide Shift, Set, SameBelow;
    if i < 8 {
      UpperDigits(c, x);
    } else {
      LowerDigits(c, x);
    }
  }

  /** The register after one bit: each coefficient moves up by one, and the generator is taken off or not. */
  lemma FedDigits(c: bv16, bit: bool, i: nat)
    requires i < 16
    ensures Digits(FeedBit(c, bit))[i]
         == ((i < 15 && Digits(c)[i + 1]) != ((Digits(c)[0] != bit) && UnderGenerator(i + 1)))
  {
    hide Shift, Xor, Mask, UnderGenerator, Set, SameBelow;
    var x := Xor(c, Mask(bit));
    FirstDigit(c, bit);
    NthMoves(c, x, i);
  }

  /** One fed bit is one round of the division. */
  lemma FeedReduces(c: bv16, rest: seq<bool>)
    requires |rest| > 16
    ensures Reduced(Pending(c, rest)) == Pending(FeedBit(c, rest[0]), rest[1..])
  {
    hide FeedBit, Digits, UnderGenerator;
    var p, q := Reduced(Pending(c, rest)), Pending(FeedBit(c, rest[0]), rest[1..]);
    forall i | 0 <= i < |p| ensures p[i] == q[i] {
      if i < 16 {
        FedDigits(c, rest[0], i);
      } else {
        BeyondGenerator(i + 1);
      }
    }
  }

  lemma BeyondGenerator(i: nat)
    requires i > 16
    ensures !UnderGenerator(i)
  {
  }

  lemma {:induction false} FeedDivides(c: bv16, bits: seq<bool>)
    ensures Digits(Feed(c, bits)) == Remainder(Pending(c, bits + Zeros(16)))
    decreases |bits|
  {
    hide FeedBit, Digits, Reduced;
    var rest := bits + Zeros(16);
    if bits == [] {
      assert Pending(c, rest) == Digits(c);
    } else {
      FeedReduces(c, rest);
      assert rest[1..] == bits[1..] + Zeros(16) && rest[0] == bits[0];
      FeedDivides(FeedBit(c, bits[0]), bits[1..]);
    }
  }

  lemma NothingSet(i: nat)
    ensures !Nth(0, i)
  {
  }

  lemma NothingAdded(p: seq<bool>)
    requires |p| >= 16
    ensures Pending(0, p) == p
  {
    hide Nth;
    forall i | 0 <= i < 16 ensures !Digits(0)[i] {
      NothingSet(i);
    }
  }

  /** The CRC of a block is the remainder of its bits, with sixteen zeros behind them. */
  lemma CrcIsRemainder(data: seq<bv8>)
    ensures Digits(Crc(data)) == Remainder(BlockBits(data) + Zeros(16))
  {
    hide Digits, Feed, Remainder, CrcFrom;
    CrcIsFeed(0, data);
    FeedDivides(0, BlockBits(data));
    NothingAdded(BlockBits(data) + Zeros(16));
  }

  /** The generator itself leaves nothing. */
  lemma GeneratorDivides()
    ensures var g := [true, false, false, false, true, false, false, false, false, false, false, true,
                      false, false, false, false, true];
      Remainder(g) == Zeros(16)
  {
    var g := [true, false, false, false, true, false, false, false, false, false, false, true,
              false, false, false, false, true];
    assert Reduced(g) == Zeros(16);
  }
}
