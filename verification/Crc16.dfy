/** The CRC that guards SD block reads, and the errors it cannot miss. */
module Crc16 {

  function Xor(a: bv16, b: bv16): bv16 { a ^ b }

  /** Division by the generator x^16 + x^12 + x^5 + 1, one bit. */
  function Shift(c: bv16): bv16 {
    if c & 0x8000 != 0 then (c << 1) ^ 0x1021 else c << 1
  }

  function Shifts(c: bv16, n: nat): bv16
    decreases n
  {
    if n == 0 then c else Shifts(Shift(c), n - 1)
  }

  function ByteStep(c: bv16, b: bv8): bv16 {
    Shifts(c ^ ((b as bv16) << 8), 8)
  }

  /** The CRC of a block, continued from `c`. */
  function CrcFrom(c: bv16, data: seq<bv8>): bv16
    decreases |data|
  {
    if data == [] then c else CrcFrom(ByteStep(c, data[0]), data[1..])
  }

  function Crc(data: seq<bv8>): bv16 { CrcFrom(0, data) }

  lemma {:induction false} ShiftsSnoc(c: bv16, n: nat)
    ensures Shift(Shifts(c, n)) == Shifts(c, n + 1)
    decreases n
  {
    if n > 0 {
      ShiftsSnoc(Shift(c), n - 1);
    }
  }

  lemma {:induction false} CrcSnoc(c: bv16, data: seq<bv8>, b: bv8)
    ensures CrcFrom(c, data + [b]) == ByteStep(CrcFrom(c, data), b)
    decreases |data|
  {
    hide ByteStep;
    if data != [] {
      assert (data + [b])[1..] == data[1..] + [b];
      CrcSnoc(ByteStep(c, data[0]), data[1..], b);
    } else {
      assert (data + [b])[1..] == [];
    }
  }

  /** The driver's two nested loops. */
  method ComputeCrc(data: seq<bv8>) returns (crc: bv16)
    ensures crc == Crc(data)
  {
    hide Shift;
    crc := 0;
    assert data[..0] == [];
    for i := 0 to |data|
      invariant crc == CrcFrom(0, data[..i])
    {
      ghost var before := crc;
      crc := crc ^ ((data[i] as bv16) << 8);
      ghost var mixed := crc;
      for j := 0 to 8
        invariant crc == Shifts(mixed, j)
      {
        ShiftsSnoc(mixed, j);
        crc := ShiftOnce(crc);
      }
      assert crc == ByteStep(before, data[i]);
      CrcSnoc(0, data[..i], data[i]);
      assert data[..i + 1] == data[..i] + [data[i]];
    }
    assert data[..|data|] == data;
  }

  method ShiftOnce(c: bv16) returns (r: bv16)
    ensures r == Shift(c)
  {
    if c & 0x8000 != 0 {
      r := (c << 1) ^ 0x1021;
    } else {
      r := c << 1;
    }
  }

  // ----- bit by bit -----

  function Mask(bit: bool): bv16 { if bit then 0x8000 else 0 }

  function FeedBit(c: bv16, bit: bool): bv16 { Shift(Xor(c, Mask(bit))) }

  /** The same register, fed one bit at a time. */
  function Feed(c: bv16, bits: seq<bool>): bv16
    decreases |bits|
  {
    if bits == [] then c else Feed(FeedBit(c, bits[0]), bits[1..])
  }

  lemma TopBit(a: bv16)
    ensures a & 0x8000 == 0 || a & 0x8000 == 0x8000
  {
  }

  lemma XorParts(a: bv16, b: bv16)
    ensures (a ^ b) << 1 == (a << 1) ^ (b << 1)
    ensures (a ^ b) & 0x8000 == (a & 0x8000) ^ (b & 0x8000)
  {
  }

  lemma MoveOut(a: bv16, b: bv16, p: bv16)
    ensures (a ^ p) ^ b == (a ^ b) ^ p && a ^ (b ^ p) == (a ^ b) ^ p && (a ^ p) ^ (b ^ p) == a ^ b
  {
  }

  lemma XorSwap(a: bv16, b: bv16, p: bv16, q: bv16)
    ensures Xor(Xor(a, b), Xor(p, q)) == Xor(Xor(a, p), Xor(b, q))
  {
    hide Xor;
    XorAssoc(Xor(a, b), p, q);
    XorAssoc(a, b, p);
    XorAssoc(a, p, b);
    XorAssoc(Xor(a, p), b, q);
    XorCommutes(b, p);
  }

  lemma XorCommutes(a: bv16, b: bv16)
    ensures Xor(a, b) == Xor(b, a)
  {
  }

  lemma XorAssoc(a: bv16, p: bv16, q: bv16)
    ensures Xor(a, Xor(p, q)) == Xor(Xor(a, p), q)
  {
  }

  lemma XorZero(a: bv16)
    ensures Xor(a, 0) == a
  {
  }

  lemma ShiftLinear(a: bv16, b: bv16)
    ensures Shift(Xor(a, b)) == Xor(Shift(a), Shift(b))
  {
    TopBit(a);
    TopBit(b);
    XorParts(a, b);
    MoveOut(a << 1, b << 1, 0x1021);
  }

  lemma ShiftZero(a: bv16)
    ensures Shift(a) == 0 <==> a == 0
  {
  }

  lemma {:induction false} ShiftsZero(a: bv16, n: nat)
    ensures Shifts(a, n) == 0 <==> a == 0
    decreases n
  {
    hide Shift;
    ShiftZero(a);
    if n > 0 {
      ShiftsZero(Shift(a), n - 1);
    }
  }

  // ----- linearity -----

  /** Position by position, whether two bit strings differ. */
  function Differences(x: seq<bool>, y: seq<bool>): (d: seq<bool>)
    requires |x| == |y|
    ensures |d| == |x| && forall i :: 0 <= i < |x| ==> d[i] == (x[i] != y[i])
  {
    seq(|x|, i requires 0 <= i < |x| && |x| == |y| => x[i] != y[i])
  }

  lemma MaskLinear(x: bool, y: bool)
    ensures Mask(x != y) == Xor(Mask(x), Mask(y))
  {
  }

  lemma FeedBitLinear(a: bv16, b: bv16, x: bool, y: bool)
    ensures FeedBit(Xor(a, b), x != y) == Xor(FeedBit(a, x), FeedBit(b, y))
  {
    hide Xor, Shift, Mask;
    MaskLinear(x, y);
    XorSwap(a, b, Mask(x), Mask(y));
    ShiftLinear(Xor(a, Mask(x)), Xor(b, Mask(y)));
  }

  /** The register is linear: the differences of two inputs leave the difference of their registers. */
  lemma {:induction false} FeedLinear(a: bv16, b: bv16, x: seq<bool>, y: seq<bool>)
    requires |x| == |y|
    ensures Feed(Xor(a, b), Differences(x, y)) == Xor(Feed(a, x), Feed(b, y))
    decreases |x|
  {
    hide FeedBit, Xor;
    if x != [] {
      FeedBitLinear(a, b, x[0], y[0]);
      assert Differences(x, y)[1..] == Differences(x[1..], y[1..]);
      FeedLinear(FeedBit(a, x[0]), FeedBit(b, y[0]), x[1..], y[1..]);
    }
  }

  lemma {:induction false} FeedSplit(c: bv16, x: seq<bool>, y: seq<bool>)
    ensures Feed(c, x + y) == Feed(Feed(c, x), y)
    decreases |x|
  {
    hide FeedBit;
    if x == [] {
      assert x + y == y;
    } else {
      assert (x + y)[1..] == x[1..] + y;
      FeedSplit(FeedBit(c, x[0]), x[1..], y);
    }
  }

  predicate AllFalse(x: seq<bool>) { forall i :: 0 <= i < |x| ==> !x[i] }

  /** Bits that are all zero only shift the register, so they neither make nor unmake a zero. */
  lemma {:induction false} FeedZeros(c: bv16, x: seq<bool>)
    requires AllFalse(x)
    ensures Feed(c, x) == 0 <==> c == 0
    decreases |x|
  {
    if x != [] {
      ShiftZero(c);
      XorZero(c);
      hide Shift, Xor;
      FeedZeros(Shift(c), x[1..]);
    }
  }

  // ----- sixteen bits -----

  function Half(t: bv16): bv16 { t >> 1 }

  /** Up to sixteen bits as the top bits of a word. */
  function Top(bits: seq<bool>): bv16 {
    if bits == [] then 0 else Xor(Mask(bits[0]), Half(Top(bits[1..])))
  }

  /** The `k` lowest bits. */
  function Low(k: nat): bv16
    requires k <= 16
  {
    [0x0, 0x1, 0x3, 0x7, 0xF, 0x1F, 0x3F, 0x7F, 0xFF, 0x1FF,
     0x3FF, 0x7FF, 0xFFF, 0x1FFF, 0x3FFF, 0x7FFF, 0xFFFF][k]
  }

  function Widened(m: bv16): bv16 { (m << 1) | 1 }

  lemma LowStarts(k: nat)
    requires 0 < k <= 16
    ensures Low(k) == Widened(Low(k - 1))
  {
  }

  /** A word of fewer than sixteen bits has its lowest bits free. */
  lemma {:induction false} TopLow(bits: seq<bool>)
    requires |bits| <= 16
    ensures Top(bits) & Low(16 - |bits|) == 0
  {
    hide Xor, Mask, Half, Widened, Low;
    if bits == [] {
      NothingLow(Low(16));
    } else {
      TopLow(bits[1..]);
      LowStarts(17 - |bits|);
      LowClear(16 - |bits|);
      TopLowStep(Top(bits[1..]), Low(16 - |bits|), bits[0]);
    }
  }

  lemma NothingLow(m: bv16)
    ensures 0 & m == 0
  {
  }

  lemma LowClear(k: nat)
    requires k <= 16
    ensures k < 16 ==> Low(k) & 0x8000 == 0
    ensures k > 0 ==> Low(k) & 1 == 1
  {
  }

  lemma TopLowStep(t: bv16, m: bv16, bit: bool)
    requires m & 0x8000 == 0 && t & Widened(m) == 0
    ensures Xor(Mask(bit), Half(t)) & m == 0
  {
  }

  /** So halving such a word loses nothing. */
  lemma LowestFree(bits: seq<bool>)
    requires |bits| <= 15
    ensures Top(bits) & 1 == 0
  {
    hide Top, Low;
    TopLow(bits);
    LowClear(16 - |bits|);
    LowBit(Top(bits), Low(16 - |bits|));
  }

  lemma LowBit(t: bv16, m: bv16)
    requires t & m == 0 && m & 1 == 1
    ensures t & 1 == 0
  {
  }

  lemma HalfAndBack(t: bv16)
    requires t & 1 == 0
    ensures Shift(Half(t)) == t
  {
  }

  /** Feeding up to sixteen bits is the same as mixing them in first and then shifting. */
  lemma {:induction false} FeedIsShifts(c: bv16, bits: seq<bool>)
    requires |bits| <= 16
    ensures Feed(c, bits) == Shifts(Xor(c, Top(bits)), |bits|)
    decreases |bits|
  {
    if bits == [] {
      XorZero(c);
    } else {
      var rest := bits[1..];
      LowestFree(rest);
      HalfAndBack(Top(rest));
      hide Shift, Xor, Mask, Half;
      ShiftLinear(Xor(c, Mask(bits[0])), Half(Top(rest)));
      XorAssoc(c, Mask(bits[0]), Half(Top(rest)));
      FeedIsShifts(FeedBit(c, bits[0]), rest);
    }
  }

  /** The word of a bit string is zero only when all its bits are. */
  lemma {:induction false} TopZero(bits: seq<bool>)
    requires |bits| <= 16 && Top(bits) == 0
    ensures AllFalse(bits)
  {
    if bits != [] {
      var rest := bits[1..];
      LowestFree(rest);
      TopParts(Top(rest), bits[0]);
      TopZero(rest);
      assert forall i :: 1 <= i < |bits| ==> bits[i] == rest[i - 1];
    }
  }

  lemma TopParts(t: bv16, bit: bool)
    requires t & 1 == 0 && Xor(Mask(bit), Half(t)) == 0
    ensures !bit && t == 0
  {
  }

  // ----- what the CRC detects -----

  /** Equal but for at most sixteen consecutive bits. */
  predicate DifferInBurst(x: seq<bool>, y: seq<bool>, p: nat) {
    |x| == |y| && forall i :: 0 <= i < |x| && !(p <= i < p + 16) ==> x[i] == y[i]
  }

  lemma XorSelf(a: bv16)
    ensures Xor(a, a) == 0 && Xor(0, 0) == 0
  {
  }

  lemma XorNothing(a: bv16)
    ensures Xor(0, a) == a
  {
  }

  /** A burst of up to sixteen bits, wherever it lies, always changes the register. */
  lemma BurstDetected(x: seq<bool>, y: seq<bool>, p: nat)
    requires DifferInBurst(x, y, p) && Feed(0, x) == Feed(0, y)
    ensures x == y
  {
    hide Xor, Feed, Shifts, Top;
    var d := Differences(x, y);
    FeedLinear(0, 0, x, y);
    XorSelf(Feed(0, x));
    var a := if p <= |d| then p else |d|;
    var b := if p + 16 <= |d| then p + 16 else |d|;
    var front, burst, rest := d[..a], d[a..b], d[b..];
    assert d == front + (burst + rest);
    FeedSplit(0, front, burst + rest);
    FeedZeros(0, front);
    FeedSplit(0, burst, rest);
    FeedZeros(Feed(0, burst), rest);
    FeedIsShifts(0, burst);
    ShiftsZero(Xor(0, Top(burst)), |burst|);
    XorNothing(Top(burst));
    TopZero(burst);
    forall i | 0 <= i < |x| ensures x[i] == y[i] {
      if a <= i < b { assert d[i] == burst[i - a]; }
    }
  }

  // ----- bytes -----

  function Bit(b: bv8, i: nat): bool
    requires i < 8
  {
    (b >> (7 - i as bv8)) & 1 == 1
  }

  /** A byte's bits, the highest first, as they are sent. */
  function ByteBits(b: bv8): (s: seq<bool>)
    ensures |s| == 8
  {
    [Bit(b, 0), Bit(b, 1), Bit(b, 2), Bit(b, 3), Bit(b, 4), Bit(b, 5), Bit(b, 6), Bit(b, 7)]
  }

  function BlockBits(data: seq<bv8>): (s: seq<bool>)
    ensures |s| == 8 * |data|
  {
    if data == [] then [] else ByteBits(data[0]) + BlockBits(data[1..])
  }

  /** A byte's bits are the upper half of the word that the driver mixes in. */
  lemma ByteTop(b: bv8)
    ensures Top(ByteBits(b)) == (b as bv16) << 8
  {
    hide Top;
    var s := ByteBits(b);
    TopLast(s[7..]);
    TopTwo(s[6..]);
    TopTwo(s[5..]);
    TopTwo(s[4..]);
    TopTwo(s[3..]);
    TopTwo(s[2..]);
    TopTwo(s[1..]);
    TopTwo(s);
    assert s[0..] == s;
    EightBits(b);
  }

  lemma TopLast(bits: seq<bool>)
    requires |bits| == 1
    ensures Top(bits) == Mask(bits[0])
  {
  }

  lemma TopTwo(bits: seq<bool>)
    requires |bits| > 1
    ensures Top(bits) == Xor(Mask(bits[0]), Half(Top(bits[1..])))
  {
  }

  lemma EightBits(b: bv8)
    ensures Xor(Mask(Bit(b, 0)), Half(Xor(Mask(Bit(b, 1)), Half(Xor(Mask(Bit(b, 2)), Half(Xor(Mask(Bit(b, 3)),
            Half(Xor(Mask(Bit(b, 4)),
              Half(Xor(Mask(Bit(b, 5)), Half(Xor(Mask(Bit(b, 6)), Half(Mask(Bit(b, 7))))))))))))))))
         == (b as bv16) << 8
  {
  }

  /** The driver's byte step feeds the byte's bits. */
  lemma ByteIsBits(c: bv16, b: bv8)
    ensures ByteStep(c, b) == Feed(c, ByteBits(b))
  {
    ByteTop(b);
    FeedIsShifts(c, ByteBits(b));
  }

  lemma {:induction false} CrcIsFeed(c: bv16, data: seq<bv8>)
    ensures CrcFrom(c, data) == Feed(c, BlockBits(data))
    decreases |data|
  {
    hide ByteStep, ByteBits, FeedBit;
    if data != [] {
      ByteIsBits(c, data[0]);
      FeedSplit(c, ByteBits(data[0]), BlockBits(data[1..]));
      CrcIsFeed(ByteStep(c, data[0]), data[1..]);
    }
  }

  lemma {:induction false} BlockBitAt(data: seq<bv8>, i: nat, k: nat)
    requires i < |data| && k < 8
    ensures BlockBits(data)[8 * i + k] == ByteBits(data[i])[k]
  {
    hide ByteBits;
    if i > 0 {
      BlockBitAt(data[1..], i - 1, k);
    }
  }

  lemma BitsOfByte(a: bv8, b: bv8)
    requires ByteBits(a) == ByteBits(b)
    ensures a == b
  {
    ByteTop(a);
    ByteTop(b);
  }

  /** Two blocks of any equal length that differ only within two adjacent bytes have different CRCs. */
  lemma AdjacentBytesDetected(x: seq<bv8>, y: seq<bv8>, p: nat)
    requires |x| == |y| && forall i :: 0 <= i < |x| && i != p && i != p + 1 ==> x[i] == y[i]
    requires Crc(x) == Crc(y)
    ensures x == y
  {
    hide ByteBits, BlockBits, Feed, CrcFrom;
    CrcIsFeed(0, x);
    CrcIsFeed(0, y);
    forall j | 0 <= j < 8 * |x| && !(8 * p <= j < 8 * p + 16) ensures BlockBits(x)[j] == BlockBits(y)[j] {
      BlockBitAt(x, j / 8, j % 8);
      BlockBitAt(y, j / 8, j % 8);
    }
    BurstDetected(BlockBits(x), BlockBits(y), 8 * p);
    forall i | 0 <= i < |x| ensures x[i] == y[i] {
      forall k | 0 <= k < 8 ensures ByteBits(x[i])[k] == ByteBits(y[i])[k] {
        BlockBitAt(x, i, k);
        BlockBitAt(y, i, k);
      }
      BitsOfByte(x[i], y[i]);
    }
  }

  /** More generally, the CRC misses no burst of up to sixteen bits, at whatever bit it begins. */
  lemma BurstsDetected(x: seq<bv8>, y: seq<bv8>, p: nat)
    requires |x| == |y| && DifferInBurst(BlockBits(x), BlockBits(y), p) && Crc(x) == Crc(y)
    ensures BlockBits(x) == BlockBits(y)
  {
    CrcIsFeed(0, x);
    CrcIsFeed(0, y);
    BurstDetected(BlockBits(x), BlockBits(y), p);
  }

  function XorByte(a: bv8, b: bv8): bv8 { a ^ b }

  /** Byte by byte, the exclusive or of two blocks. */
  function XorBlocks(x: seq<bv8>, y: seq<bv8>): (d: seq<bv8>)
    requires |x| == |y|
    ensures |d| == |x| && forall i :: 0 <= i < |x| ==> d[i] == XorByte(x[i], y[i])
  {
    seq(|x|, i requires 0 <= i < |x| && |x| == |y| => XorByte(x[i], y[i]))
  }

  lemma XorBit(a: bv8, b: bv8, i: nat)
    requires i < 8
    ensures Bit(XorByte(a, b), i) == (Bit(a, i) != Bit(b, i))
  {
    XorShifted(a, b, 7 - i as bv8);
    LowBits(a >> (7 - i as bv8), b >> (7 - i as bv8));
  }

  lemma XorShifted(a: bv8, b: bv8, n: bv8)
    requires n < 8
    ensures (a ^ b) >> n == (a >> n) ^ (b >> n)
  {
  }

  lemma LowBits(a: bv8, b: bv8)
    ensures ((a ^ b) & 1 == 1) == ((a & 1 == 1) != (b & 1 == 1))
  {
  }

  lemma XorBits(a: bv8, b: bv8)
    ensures ByteBits(XorByte(a, b)) == Differences(ByteBits(a), ByteBits(b))
  {
    hide Bit, XorByte;
    var s, d := ByteBits(XorByte(a, b)), Differences(ByteBits(a), ByteBits(b));
    forall i | 0 <= i < 8 ensures s[i] == d[i] {
      XorBit(a, b, i);
    }
  }

  lemma DifferencesJoin(x: seq<bool>, y: seq<bool>, x': seq<bool>, y': seq<bool>)
    requires |x| == |y| && |x'| == |y'|
    ensures Differences(x + x', y + y') == Differences(x, y) + Differences(x', y')
  {
  }

  lemma {:induction false} XorBlockBits(x: seq<bv8>, y: seq<bv8>)
    requires |x| == |y|
    ensures BlockBits(XorBlocks(x, y)) == Differences(BlockBits(x), BlockBits(y))
  {
    hide ByteBits, XorByte, Differences;
    if x != [] {
      XorBits(x[0], y[0]);
      assert XorBlocks(x, y)[1..] == XorBlocks(x[1..], y[1..]);
      XorBlockBits(x[1..], y[1..]);
      DifferencesJoin(ByteBits(x[0]), ByteBits(y[0]), BlockBits(x[1..]), BlockBits(y[1..]));
    }
  }

  /** The CRC is linear over exclusive or. */
  lemma CrcLinear(x: seq<bv8>, y: seq<bv8>)
    requires |x| == |y|
    ensures Crc(XorBlocks(x, y)) == Xor(Crc(x), Crc(y))
  {
    hide Xor, Feed, BlockBits, CrcFrom;
    CrcIsFeed(0, x);
    CrcIsFeed(0, y);
    CrcIsFeed(0, XorBlocks(x, y));
    XorBlockBits(x, y);
    FeedLinear(0, 0, BlockBits(x), BlockBits(y));
    XorNothing(0);
  }
}
