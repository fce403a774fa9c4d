/** The packets on the wire, byte by byte, and what one round of the receiver makes of them. */
module XmodemWire {
  import opened Basics
  import opened Xmodem

  function Total(data: seq<int>): int {
    if data == [] then 0 else data[0] + Total(data[1..])
  }

  lemma {:induction false} TotalSnoc(data: seq<int>, b: int)
    ensures Total(data + [b]) == Total(data) + b
  {
    if data == [] {
      assert [] + [b] == [b];
    } else {
      assert (data + [b])[1..] == data[1..] + [b];
      TotalSnoc(data[1..], b);
    }
  }

  lemma AddCut(x: int, y: int)
    ensures (x % 0x100 + y) % 0x100 == (x + y) % 0x100
  {
    var q := x / 0x100;
    assert x == 0x100 * q + x % 0x100;
  }

  /** The checksum is the sum of the bytes, cut to eight bits. */
  lemma {:induction false} ChecksumIsTotal(data: seq<byte>)
    ensures Checksum(data) as int == Total(data) % 0x100
  {
    if data != [] {
      hide Total;
      var init, last := data[..|data| - 1], data[|data| - 1];
      ChecksumIsTotal(init);
      TotalSnoc(init, last);
      LastJoins(data);
      AddCut(Total(init), last);
    }
  }

  lemma LastJoins(data: seq<byte>)
    requires data != []
    ensures data[..|data| - 1] + [data[|data| - 1]] == data
  {
  }

  /** A block number on the wire comes with its complement, 128 bytes and their sum; a 4 ends the file. */
  lemma PacketOnWire(n: nat, data: Block)
    ensures var p := Packet(n, data);
      && |p| == 132 && p[0] == 1 && p[1] == n % 0x100 && p[1] + p[2] == 0xFF && p[3..131] == data
      && p[131] == Total(data) % 0x100
    ensures Sent([], n) == [4]
  {
    hide Checksum;
    ChecksumIsTotal(data);
    var p := Packet(n, data);
    assert p == [1, n % 0x100, 0xFF - n % 0x100] + data + [Checksum(data) as int];
  }

  /** 132 bytes without a silence, with number, complement and sum in place. */
  predicate Whole(h: Heard) {
    && |h| >= 132 && (forall i :: 0 <= i < 132 ==> h[i] >= 0)
    && h[0] == 1 && h[1] + h[2] == 0xFF && h[131] == Total(h[3..131]) % 0x100
  }

  lemma {:induction false} CountExactly(h: Heard, i: nat, n: nat)
    ensures Count(h, i, n) == n <==> n == 0 || (i + n <= |h| && forall j :: i <= j < i + n ==> h[j] >= 0)
    decreases n
  {
    if n > 0 {
      CountExactly(h, i + 1, n - 1);
    }
  }

  lemma HeardData(h: Heard)
    requires |h| >= 132 && forall i :: 0 <= i < 132 ==> h[i] >= 0
    ensures Count(h, 3, BLOCK) == BLOCK && Data(h, 3) == h[3..131]
  {
    hide Count;
    CountExactly(h, 3, BLOCK);
  }

  lemma LooksWhole(h: Heard)
    ensures Looks(h) <==> Whole(h)
  {
    hide Count, Checksum, Total, Data;
    CountExactly(h, 3, BLOCK);
    if |h| >= 132 && forall i :: 0 <= i < 132 ==> h[i] >= 0 {
      HeardData(h);
      ChecksumIsTotal(Data(h, 3));
    }
  }

  /** One round, in terms of the bytes that are heard. */
  lemma RoundExactly(r: Recv, h: Heard, capacity: nat)
    ensures var (s, reply) := Round(r, h, capacity);
      if h != [] && h[0] == 4 then s == r && reply == Ended
      else if h != [] && h[0] == 0x18 then s == r && reply == Cancelled
      else if !Whole(h) then s == r && reply == Nak
      else if h[1] != r.expected % 0x100 then s == r && reply == Ack
      else if |r.buf| + 128 > capacity then s == r && reply == TooBig
      else s.buf == r.buf + h[3..131] && s.expected == r.expected + 1 && reply == Ack
  {
    hide Looks, Data, Total;
    LooksWhole(h);
    if Looks(h) {
      HeardData(h);
    }
  }

  /** How much a round that goes on uses up: a lost header, a lost number, or all that came up to the first silence. */
  lemma SpanExactly(h: Heard, m: nat)
    requires |h| >= 132 && m <= 128 && (forall i :: 0 <= i < 3 + m ==> h[i] >= 0) && (m < 128 ==> h[3 + m] < 0)
    ensures Span(h) == if h[0] != 1 then 1 else if h[1] + h[2] != 0xFF then 3 else if m < 128 then m + 5 else 132
  {
    hide Count;
    CountIs(h, 3, BLOCK, m);
  }

  lemma {:induction false} CountIs(h: Heard, i: nat, n: nat, m: nat)
    requires m <= n && i + m <= |h| && (forall j :: i <= j < i + m ==> h[j] >= 0)
    requires m < n ==> Get(h, i + m) < 0
    ensures Count(h, i, n) == m
    decreases n
  {
    if m > 0 {
      CountIs(h, i + 1, n - 1, m - 1);
    }
  }
}
