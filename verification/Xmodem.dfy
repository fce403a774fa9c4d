/** The XMODEM receiver, and a sender that waits for each reply, over a channel that loses and damages. */
module Xmodem {

  import opened Basics

  const SOH := 0x01
  const EOT := 0x04
  const CAN := 0x18
  const BLOCK := 128
  const PACKET := BLOCK + 4

  // ----- what the receiver hears -----

  /** What one transmission brings: bytes, and silence (-1) wherever the next byte does not come in time. */
  type Heard = s: seq<int> | forall i :: 0 <= i < |s| ==> -1 <= s[i] < 256 witness []

  function Get(h: Heard, i: nat): int {
    if i < |h| then h[i] else -1
  }

  function Checksum(data: seq<byte>): byte {
    if data == [] then 0 else (Checksum(data[..|data| - 1]) + data[|data| - 1] as int) % 256
  }

  /** How many bytes come from position `i` on before a silence, at most `n`. */
  function Count(h: Heard, i: nat, n: nat): (m: nat)
    ensures m <= n && (m > 0 ==> i + m <= |h|) && (m < n ==> Get(h, i + m) < 0)
    ensures forall j :: i <= j < i + m ==> 0 <= h[j] < 256
    decreases n
  {
    if n == 0 || Get(h, i) < 0 then 0 else 1 + Count(h, i + 1, n - 1)
  }

  /** The data bytes from position `i` on, as many as are heard of one block. */
  function Data(h: Heard, i: nat): (data: seq<byte>)
    ensures |data| == Count(h, i, BLOCK)
  {
    Bytes(h, i, Count(h, i, BLOCK))
  }

  function Bytes(h: Heard, i: nat, m: nat): (data: seq<byte>)
    requires m > 0 ==> i + m <= |h|
    requires forall j :: i <= j < i + m ==> 0 <= h[j] < 256
    ensures |data| == m && forall j :: 0 <= j < m ==> data[j] == h[i + j]
  {
    seq(m, j requires 0 <= j < m => h[i + j])
  }

  function AtMost(n: nat, bound: nat): nat { if n < bound then n else bound }

  /** How much of what is heard one round of the receiver uses up. */
  function Span(h: Heard): (n: nat)
    ensures n <= |h| && (h != [] ==> n > 0)
  {
    if Get(h, 0) != SOH then AtMost(1, |h|)
    else if Get(h, 1) < 0 || Get(h, 2) < 0 || Get(h, 1) + Get(h, 2) != 0xFF then AtMost(3, |h|)
    else
      var m := Count(h, 3, BLOCK);
      AtMost(if m < BLOCK then m + 5 else PACKET, |h|)
  }

  /** What is heard begins with a packet in which number, complement and checksum fit together. */
  predicate Looks(h: Heard) {
    && Get(h, 0) == SOH && Get(h, 1) >= 0 && Get(h, 2) >= 0 && Get(h, 1) + Get(h, 2) == 0xFF
    && Count(h, 3, BLOCK) == BLOCK && Get(h, 3 + BLOCK) >= 0 && Get(h, 3 + BLOCK) == Checksum(Data(h, 3)) as int
  }

  // ----- the receiver -----

  /** The bytes accepted so far and the number of the next block, counted without wrapping. */
  datatype Recv = Recv(buf: seq<byte>, expected: nat)

  datatype Reply = Ack | Nak | Ended | Cancelled | TooBig {
    /** The transfer goes on. */
    predicate Going() { Ack? || Nak? }
  }

  /** One round: the new state and the reply. */
  function Round(r: Recv, h: Heard, capacity: nat): (Recv, Reply) {
    if Get(h, 0) == EOT then (r, Ended)
    else if Get(h, 0) == CAN then (r, Cancelled)
    else if !Looks(h) then (r, Nak)
    else if Get(h, 1) != r.expected % 256 then (r, Ack)
    else if |r.buf| + BLOCK > capacity then (r, TooBig)
    else (Recv(r.buf + Data(h, 3), r.expected + 1), Ack)
  }

  /** Round after round, until all that is heard is used up or the transfer is over: state and replies. */
  function Scan(r: Recv, h: Heard, capacity: nat): (res: (Recv, seq<Reply>))
    ensures res.1 != []
    decreases |h|
  {
    var (s, reply) := Round(r, h, capacity);
    if !reply.Going() || Span(h) == |h| then (s, [reply])
    else
      var (t, more) := Scan(s, h[Span(h)..], capacity);
      (t, [reply] + more)
  }

  function Last(replies: seq<Reply>): Reply
    requires replies != []
  {
    replies[|replies| - 1]
  }

  lemma ChecksumNone()
    ensures Checksum([]) == 0
  {
  }

  lemma ChecksumMore(data: seq<byte>, b: byte)
    ensures Checksum(data + [b]) == (Checksum(data) as int + b) % 256
  {
    assert (data + [b])[..|data|] == data;
  }

  lemma CountGoesOn(h: Heard, i: nat, m: nat)
    requires m < BLOCK && m <= Count(h, i, BLOCK) && Get(h, i + m) >= 0
    ensures m < Count(h, i, BLOCK)
  {
  }

  lemma CountStops(h: Heard, i: nat, m: nat)
    requires m <= Count(h, i, BLOCK) && (m == BLOCK || Get(h, i + m) < 0)
    ensures m == Count(h, i, BLOCK)
  {
  }

  class Receiver {
    const filebuf: array<byte>
    var total: nat
    var expected: nat

    ghost predicate Valid()
      reads this
    {
      total <= filebuf.Length
    }

    ghost function View(): Recv
      reads this, filebuf
      requires Valid()
    {
      Recv(filebuf[..total], expected)
    }

    constructor (capacity: nat)
      ensures Valid() && filebuf.Length == capacity && View() == Recv([], 1) && fresh(filebuf)
    {
      filebuf := new byte[capacity](_ => 0);
      total, expected := 0, 1;
    }

    /** Reads the 128 data bytes of a block; stops early on silence. */
    method ReadData(h: Heard, i: nat) returns (data: seq<byte>, cksum: byte)
      ensures data == Data(h, i) && cksum == Checksum(data)
    {
      hide Count, Checksum;
      data, cksum := [], 0;
      ChecksumNone();
      while |data| < BLOCK
        invariant |data| <= Count(h, i, BLOCK) && data == Bytes(h, i, |data|)
        invariant cksum == Checksum(data)
        decreases BLOCK - |data|
      {
        var b := Get(h, i + |data|);
        if b < 0 {
          break;
        }
        CountGoesOn(h, i, |data|);
        cksum := (cksum as int + b) % 256;
        ChecksumMore(data, b);
        data := data + [b];
      }
      CountStops(h, i, |data|);
    }

    /** Appends an accepted block. */
    method Store(data: seq<byte>)
      requires Valid() && |data| == BLOCK && total + BLOCK <= filebuf.Length
      modifies this, filebuf
      ensures Valid() && View() == Recv(old(View()).buf + data, old(expected) + 1)
    {
      for i := 0 to BLOCK
        invariant total == old(total) && expected == old(expected)
        invariant filebuf[..total] == old(filebuf[..total])
        invariant filebuf[total..total + i] == data[..i]
      {
        filebuf[total + i] := data[i];
      }
      total := total + BLOCK;
      expected := expected + 1;
      assert filebuf[..total] == old(filebuf[..total]) + data;
    }

    /** One pass through the receive loop. */
    method Receive(h: Heard) returns (reply: Reply, used: nat)
      requires Valid()
      modifies this, filebuf
      ensures Valid() && (View(), reply) == Round(old(View()), h, filebuf.Length)
      ensures reply.Going() ==> used == Span(h)
    {
      hide Count, Checksum;
      var header := Get(h, 0);
      if header == EOT {
        return Ended, 1;
      }
      if header == CAN {
        return Cancelled, 1;
      }
      if header != SOH {
        return Nak, AtMost(1, |h|);
      }
      var blk := Get(h, 1);
      var inv := Get(h, 2);
      if blk < 0 || inv < 0 || blk + inv != 0xFF {
        return Nak, AtMost(3, |h|);
      }
      var data, cksum := ReadData(h, 3);
      if |data| < BLOCK {
        return Nak, AtMost(|data| + 5, |h|);
      }
      var ck := Get(h, 3 + BLOCK);
      if ck < 0 || ck != cksum as int {
        return Nak, AtMost(PACKET, |h|);
      }
      if blk == expected % 256 {
        if total + BLOCK > filebuf.Length {
          return TooBig, PACKET;
        }
        Store(data);
      }
      return Ack, PACKET;
    }

    /** The receive loop, until what is heard is used up or the transfer is over. */
    method ReceiveAll(h: Heard) returns (replies: seq<Reply>)
      requires Valid()
      modifies this, filebuf
      ensures Valid() && (View(), replies) == Scan(old(View()), h, filebuf.Length)
    {
      hide Round, Span;
      var reply, i := Receive(h);
      replies := [reply];
      while reply.Going() && i < |h|
        invariant Valid() && (reply.Going() ==> i <= |h|)
        invariant Scan(old(View()), h, filebuf.Length)
          == if !reply.Going() || i == |h| then (View(), replies)
             else var (t, more) := Scan(View(), h[i..], filebuf.Length); (t, replies + more)
        decreases |h| - i, reply.Going()
      {
        ghost var before := View();
        ghost var rest := h[i..];
        var used;
        reply, used := Receive(h[i..]);
        ScanUnfolds(before, rest, filebuf.Length);
        ReplyFirst(replies, reply, if !reply.Going() || used == |rest| then []
          else Scan(View(), rest[used..], filebuf.Length).1);
        replies := replies + [reply];
        if reply.Going() {
          assert h[i + used..] == rest[used..];
          i := i + used;
        }
      }
    }
  }

  lemma ScanUnfolds(r: Recv, h: Heard, capacity: nat)
    ensures var (s, reply) := Round(r, h, capacity);
      Scan(r, h, capacity)
      == if !reply.Going() || Span(h) == |h| then (s, [reply])
         else (Scan(s, h[Span(h)..], capacity).0, [reply] + Scan(s, h[Span(h)..], capacity).1)
    ensures Span(h) <= |h| && (h != [] ==> Span(h) > 0)
  {
  }

  lemma ReplyFirst(replies: seq<Reply>, reply: Reply, more: seq<Reply>)
    ensures replies + ([reply] + more) == (replies + [reply]) + more
    ensures more == [] ==> replies + [reply] == replies + ([reply] + more)
  {
  }

  // ----- the sender and the channel -----

  type Block = d: seq<byte> | |d| == BLOCK witness seq(BLOCK, _ => 0)

  /** Block number `n` on the wire; the number is sent as one byte. */
  function Packet(n: nat, data: Block): (p: Heard)
    ensures |p| == PACKET
  {
    [SOH, n % 256, 255 - n % 256] + data + [Checksum(data) as int]
  }

  /** What the sender, which has `k` blocks acknowledged, sends next. */
  function Sent(blocks: seq<Block>, k: nat): Heard {
    if k < |blocks| then Packet(k + 1, blocks[k]) else [EOT]
  }

  /**
   What may arrive of `p`: anything at all, lost, damaged, delayed or added anywhere, in which nothing
   passes the checks but `p` itself.
   */
  ghost predicate Arrives(p: Heard, h: Heard) {
    forall i :: 0 <= i <= |h| && Looks(h[i..]) ==> p <= h[i..]
  }

  /** One exchange: what arrives of the packet, and the number of the one reply that gets through, if any. */
  datatype Exchange = Exchange(heard: Heard, reply: nat)

  datatype Link = Link(acked: nat, recv: Recv, outcome: Reply)

  /** The sender acts on one reply, or sends the same again. */
  function Step(s: Link, x: Exchange, capacity: nat): Link {
    if !s.outcome.Going() then s
    else
      var (r, replies) := Scan(s.recv, x.heard, capacity);
      Link(s.acked + if x.reply < |replies| && replies[x.reply].Ack? then 1 else 0, r, Last(replies))
  }

  function Run(s: Link, xs: seq<Exchange>, capacity: nat): Link {
    if xs == [] then s else Step(Run(s, xs[..|xs| - 1], capacity), xs[|xs| - 1], capacity)
  }

  const START := Link(0, Recv([], 1), Nak)

  function Concat(blocks: seq<Block>): (r: seq<byte>)
    ensures |r| == BLOCK * |blocks|
  {
    if blocks == [] then [] else Concat(blocks[..|blocks| - 1]) + blocks[|blocks| - 1]
  }

  lemma LooksIsLong(h: Heard)
    requires Looks(h)
    ensures |h| >= PACKET && Span(h) == PACKET && h[0] == SOH
  {
  }

  /** Loss alone leaves too little for a packet, and other damage is either detected or none. */
  lemma ChannelAdmits(p: Heard, h: Heard)
    requires |h| < PACKET || (|h| == PACKET && (h == p || !Looks(h)))
    ensures Arrives(p, h)
  {
    forall i | 0 <= i <= |h| && Looks(h[i..]) ensures p <= h[i..] {
      LooksIsLong(h[i..]);
      assert h[0..] == h;
    }
  }

  lemma ArrivesRest(p: Heard, h: Heard, n: nat)
    requires Arrives(p, h) && n <= |h|
    ensures Arrives(p, h[n..])
  {
    forall i | 0 <= i <= |h[n..]| && Looks(h[n..][i..]) ensures p <= h[n..][i..] {
      assert h[n..][i..] == h[n + i..];
    }
  }

  /** A packet passes the receiver's checks, whatever follows it. */
  lemma PacketLooks(n: nat, data: Block, h: Heard)
    requires Packet(n, data) <= h
    ensures Looks(h) && Get(h, 1) == n % 256 && Data(h, 3) == data
  {
    var p := Packet(n, data);
    assert forall i :: 0 <= i < PACKET ==> h[i] == p[i];
    CountBlock(h);
    assert forall i :: 0 <= i < BLOCK ==> h[3 + i] == data[i];
    assert Data(h, 3) == data;
    hide Checksum, Count, Data;
  }

  lemma CountBlock(h: Heard)
    requires |h| >= PACKET && forall i :: 3 <= i < 3 + BLOCK ==> h[i] >= 0
    ensures Count(h, 3, BLOCK) == BLOCK
  {
    hide Count;
    var m := Count(h, 3, BLOCK);
  }

  // ----- one exchange -----

  /** No round of the receiver begins at a byte that ends or cancels the transfer. */
  predicate Quiet(h: Heard)
    decreases |h|
  {
    h == [] || (h[0] != EOT && h[0] != CAN && Quiet(h[Span(h)..]))
  }

  /** Some round begins at an intact copy of `p`, before any that ends the transfer. */
  predicate Hears(p: Heard, h: Heard)
    decreases |h|
  {
    h != [] && h[0] != EOT && h[0] != CAN && (p <= h || Hears(p, h[Span(h)..]))
  }

  lemma QuietStep(p: Heard, h: Heard)
    ensures h != [] ==> Quiet(h) == (h[0] != EOT && h[0] != CAN && Quiet(h[Span(h)..]))
    ensures h != [] ==> Hears(p, h) == (h[0] != EOT && h[0] != CAN && (p <= h || Hears(p, h[Span(h)..])))
    ensures Quiet([]) && !Hears(p, []) && Span(h) <= |h| && (h != [] ==> Span(h) > 0)
    ensures Span(h) == |h| ==> h[Span(h)..] == []
  {
  }

  /** What `r` and block number `k + 1` allow the receiver to become. */
  ghost predicate Taken(r: Recv, t: Recv, k: nat, data: Block, capacity: nat) {
    t == r || (r.expected == k + 1 && t == Recv(r.buf + data, k + 2) && |r.buf| + BLOCK <= capacity)
  }

  lemma RoundOfPacket(r: Recv, k: nat, data: Block, h: Heard, capacity: nat)
    requires Arrives(Packet(k + 1, data), h) && (r.expected == k + 1 || r.expected == k + 2)
    ensures var p, (s, reply) := Packet(k + 1, data), Round(r, h, capacity);
      && (p <= h ==> s.expected == k + 2 || (reply.TooBig? && s == r))
      && Taken(r, s, k, data, capacity) && (s != r ==> p <= h && reply == Ack)
      && (reply.Ack? ==> s.expected == k + 2)
      && (reply.TooBig? ==> s == r && r.expected == k + 1 && |r.buf| + BLOCK > capacity && p <= h)
      && (p <= h ==> h[0] == SOH)
      && (reply.Ended? || reply.Cancelled? <==> h != [] && (h[0] == EOT || h[0] == CAN))
  {
    hide Looks, Packet;
    var p := Packet(k + 1, data);
    assert h[0..] == h;
    Consecutive(k + 1);
    if Looks(h) || p <= h {
      PacketLooks(k + 1, data, h);
      LooksIsLong(h);
    }
  }

  lemma Consecutive(n: nat)
    ensures (n + 1) % 256 != n % 256
  {
  }

  /**
   All that is heard of block `k + 1` was used up: the receiver has taken the block, or is as it was; it
   acknowledged only a block that it has; it has taken it exactly when it heard it whole and had room, and
   goes on exactly when it had room and no round began at EOT or CAN.
   */
  ghost predicate Scanned(r: Recv, k: nat, data: Block, h: Heard, capacity: nat, t: Recv, replies: seq<Reply>) {
    var heard, fits := Hears(Packet(k + 1, data), h), r.expected == k + 2 || |r.buf| + BLOCK <= capacity;
    && replies != [] && Taken(r, t, k, data, capacity)
    && (Ack in replies ==> t.expected == k + 2)
    && (Last(replies).TooBig? <==> heard && !fits)
    && (Last(replies).Going() <==> Quiet(h) && (heard ==> fits))
    && (t.expected == k + 2 <==> r.expected == k + 2 || (heard && fits))
  }

  lemma {:induction false} ScanPacket(r: Recv, k: nat, data: Block, h: Heard, capacity: nat)
    requires Arrives(Packet(k + 1, data), h) && (r.expected == k + 1 || r.expected == k + 2)
    ensures Scanned(r, k, data, h, capacity, Scan(r, h, capacity).0, Scan(r, h, capacity).1)
    decreases |h|
  {
    hide Round, Scan, Span, Looks, Packet, Arrives, Quiet, Hears, Scanned;
    var (s, reply) := Round(r, h, capacity);
    RoundOfPacket(r, k, data, h, capacity);
    ScanUnfolds(r, h, capacity);
    if reply.Going() && Span(h) < |h| {
      var rest := h[Span(h)..];
      ArrivesRest(Packet(k + 1, data), h, Span(h));
      ScanPacket(s, k, data, rest, capacity);
      ScannedOn(r, k, data, h, capacity, Scan(s, rest, capacity).0, Scan(s, rest, capacity).1);
    } else {
      ScannedOnce(r, k, data, h, capacity);
    }
  }

  lemma ScannedOnce(r: Recv, k: nat, data: Block, h: Heard, capacity: nat)
    requires Arrives(Packet(k + 1, data), h) && (r.expected == k + 1 || r.expected == k + 2)
    requires !Round(r, h, capacity).1.Going() || Span(h) == |h|
    ensures var (s, reply) := Round(r, h, capacity); Scanned(r, k, data, h, capacity, s, [reply])
  {
    hide Round, Span, Looks, Packet, Arrives, Quiet, Hears;
    RoundOfPacket(r, k, data, h, capacity);
    QuietStep(Packet(k + 1, data), h);
  }

  lemma ScannedOn(r: Recv, k: nat, data: Block, h: Heard, capacity: nat, t: Recv, more: seq<Reply>)
    requires Arrives(Packet(k + 1, data), h) && (r.expected == k + 1 || r.expected == k + 2)
    requires var (s, reply) := Round(r, h, capacity);
      reply.Going() && Span(h) < |h| && Scanned(s, k, data, h[Span(h)..], capacity, t, more)
    ensures Scanned(r, k, data, h, capacity, t, [Round(r, h, capacity).1] + more)
  {
    hide Round, Span, Looks, Packet, Arrives, Quiet, Hears;
    RoundOfPacket(r, k, data, h, capacity);
    QuietStep(Packet(k + 1, data), h);
    ReplyBefore(Round(r, h, capacity).1, more);
  }

  lemma ReplyBefore(reply: Reply, more: seq<Reply>)
    requires more != []
    ensures Last([reply] + more) == Last(more)
    ensures Ack in [reply] + more <==> reply == Ack || Ack in more
  {
    assert ([reply] + more)[0] == reply && forall i :: 0 <= i < |more| ==> ([reply] + more)[i + 1] == more[i];
  }

  /** While no packet is under way, nothing that is heard changes the receiver. */
  lemma {:induction false} ScanNothing(r: Recv, h: Heard, capacity: nat)
    requires forall i :: 0 <= i <= |h| ==> !Looks(h[i..])
    ensures var (t, replies) := Scan(r, h, capacity);
      t == r && Ack !in replies && !Last(replies).TooBig? && (Last(replies).Going() <==> Quiet(h))
    decreases |h|
  {
    hide Scan, Span, Looks, Quiet, Hears;
    assert h[0..] == h;
    ScanUnfolds(r, h, capacity);
    QuietStep([], h);
    var reply := Round(r, h, capacity).1;
    if reply.Going() && Span(h) < |h| {
      var rest := h[Span(h)..];
      forall i | 0 <= i <= |rest| ensures !Looks(rest[i..]) {
        assert rest[i..] == h[Span(h) + i..];
      }
      ScanNothing(r, rest, capacity);
      ReplyBefore(reply, Scan(r, rest, capacity).1);
    }
  }

  /** Less than a packet changes nothing, wherever in a packet it comes from; it may still end the transfer. */
  lemma ShortChangesNothing(r: Recv, h: Heard, capacity: nat)
    requires |h| < PACKET
    ensures var (t, replies) := Scan(r, h, capacity);
      t == r && Ack !in replies && (Last(replies).Going() <==> Quiet(h))
  {
    forall i | 0 <= i <= |h| ensures !Looks(h[i..]) {
      if Looks(h[i..]) { LooksIsLong(h[i..]); }
    }
    ScanNothing(r, h, capacity);
  }

  // ----- safety -----

  /**
   The buffer holds exactly the blocks before the expected one, and the sender is at that block or
   still at the one before it, whose acknowledgement did not get through.
   */
  ghost predicate InStep(blocks: seq<Block>, s: Link, capacity: nat) {
    var n := s.recv.expected;
    && 1 <= n <= |blocks| + 1 && s.recv.buf == Concat(blocks[..n - 1]) && |s.recv.buf| <= capacity
    && (s.acked == n - 1 || s.acked == n - 2) && s.acked <= |blocks|
    && (s.outcome.TooBig? ==> BLOCK * |blocks| > capacity)
  }

  lemma ConcatSnoc(blocks: seq<Block>, k: nat)
    requires k < |blocks|
    ensures Concat(blocks[..k + 1]) == Concat(blocks[..k]) + blocks[k]
  {
    assert blocks[..k + 1][..k] == blocks[..k];
  }

  lemma NothingLooks(h: Heard)
    requires Arrives([EOT], h)
    ensures forall i :: 0 <= i <= |h| ==> !Looks(h[i..])
  {
    forall i | 0 <= i <= |h| ensures !Looks(h[i..]) {
      if Looks(h[i..]) { LooksIsLong(h[i..]); }
    }
  }

  /** The receiver hears the block it expects, whole. */
  predicate Delivers(blocks: seq<Block>, s: Link, h: Heard) {
    s.acked == s.recv.expected - 1 < |blocks| && Hears(Sent(blocks, s.acked), h)
  }

  /** It does, and the buffer has no room for it. */
  predicate Overflows(blocks: seq<Block>, s: Link, h: Heard, capacity: nat) {
    Delivers(blocks, s, h) && |s.recv.buf| + BLOCK > capacity
  }

  /** What the exchange does to the receiver of a run in step. */
  lemma ExchangeEffect(blocks: seq<Block>, s: Link, x: Exchange, capacity: nat)
    requires InStep(blocks, s, capacity) && s.outcome.Going() && Arrives(Sent(blocks, s.acked), x.heard)
    ensures var t, n := Step(s, x, capacity), s.recv.expected;
      && InStep(blocks, t, capacity)
      && (t.outcome.Going() <==> Quiet(x.heard) && !Overflows(blocks, s, x.heard, capacity))
      && (t.outcome.TooBig? <==> Overflows(blocks, s, x.heard, capacity))
      && t.recv.expected == if Delivers(blocks, s, x.heard) && !t.outcome.TooBig? then n + 1 else n
  {
    hide Scan, Quiet, Hears, Arrives, Packet;
    var n := s.recv.expected;
    if s.acked < |blocks| {
      ScanPacket(s.recv, s.acked, blocks[s.acked], x.heard, capacity);
      ConcatSnoc(blocks, s.acked);
    } else {
      NothingLooks(x.heard);
      ScanNothing(s.recv, x.heard, capacity);
    }
  }

  /** Every exchange of the run is one that the channel allows. */
  ghost predicate Possible(blocks: seq<Block>, xs: seq<Exchange>, capacity: nat) {
    forall i :: 0 <= i < |xs| && Run(START, xs[..i], capacity).outcome.Going() ==>
      Arrives(Sent(blocks, Run(START, xs[..i], capacity).acked), xs[i].heard)
  }

  lemma PossibleInit(blocks: seq<Block>, xs: seq<Exchange>, n: nat, capacity: nat)
    requires Possible(blocks, xs, capacity) && n <= |xs|
    ensures Possible(blocks, xs[..n], capacity)
  {
    assert forall i :: 0 <= i < n ==> xs[..n][..i] == xs[..i];
  }

  /**
   At every moment of every run, whatever is lost or damaged, across any number of wrap-arounds of the
   8-bit block number, the buffer is the concatenation of the blocks before the expected one.
   */
  lemma {:induction false} AlwaysInStep(blocks: seq<Block>, xs: seq<Exchange>, capacity: nat)
    requires Possible(blocks, xs, capacity)
    ensures InStep(blocks, Run(START, xs, capacity), capacity)
  {
    if xs == [] {
      assert blocks[..0] == [];
    } else {
      var n := |xs| - 1;
      PossibleInit(blocks, xs, n, capacity);
      AlwaysInStep(blocks, xs[..n], capacity);
      var s := Run(START, xs[..n], capacity);
      if s.outcome.Going() {
        ExchangeEffect(blocks, s, xs[n], capacity);
      }
    }
  }

  // ----- how a transfer ends -----

  /** Exchange `i` of the run ends nothing. */
  ghost predicate Harmless(blocks: seq<Block>, xs: seq<Exchange>, i: nat, capacity: nat)
    requires i < |xs|
  {
    Quiet(xs[i].heard) && !Overflows(blocks, Run(START, xs[..i], capacity), xs[i].heard, capacity)
  }

  /** A run goes on exactly as long as no round of the receiver begins at EOT or CAN, and the buffer has room. */
  lemma {:induction false} GoesOnExactlyWhen(blocks: seq<Block>, xs: seq<Exchange>, capacity: nat)
    requires Possible(blocks, xs, capacity)
    ensures Run(START, xs, capacity).outcome.Going()
      <==> forall i :: 0 <= i < |xs| ==> Harmless(blocks, xs, i, capacity)
  {
    hide Quiet, Overflows, InStep, Arrives, Sent, Scan, Concat, Harmless;
    if xs != [] {
      var n := |xs| - 1;
      PossibleInit(blocks, xs, n, capacity);
      GoesOnExactlyWhen(blocks, xs[..n], capacity);
      forall i | 0 <= i < n ensures Harmless(blocks, xs[..n], i, capacity) == Harmless(blocks, xs, i, capacity) {
        HarmlessInit(blocks, xs, n, i, capacity);
      }
      LastHarmless(blocks, xs, capacity);
    }
  }

  lemma HarmlessInit(blocks: seq<Block>, xs: seq<Exchange>, n: nat, i: nat, capacity: nat)
    requires i < n <= |xs|
    ensures Harmless(blocks, xs[..n], i, capacity) == Harmless(blocks, xs, i, capacity)
  {
    assert xs[..n][i] == xs[i] && xs[..n][..i] == xs[..i];
  }

  lemma LastHarmless(blocks: seq<Block>, xs: seq<Exchange>, capacity: nat)
    requires xs != [] && Possible(blocks, xs, capacity)
    ensures var n := |xs| - 1;
      Run(START, xs, capacity).outcome.Going()
      <==> Run(START, xs[..n], capacity).outcome.Going() && Harmless(blocks, xs, n, capacity)
  {
    hide Quiet, Overflows, InStep, Arrives, Sent, Scan, Concat;
    var n := |xs| - 1;
    PossibleInit(blocks, xs, n, capacity);
    AlwaysInStep(blocks, xs[..n], capacity);
    var s := Run(START, xs[..n], capacity);
    if s.outcome.Going() {
      ExchangeEffect(blocks, s, xs[n], capacity);
    }
  }

  lemma ConcatWhole(blocks: seq<Block>, n: nat)
    requires n <= |blocks|
    ensures Concat(blocks[..n]) == Concat(blocks) <==> n == |blocks|
  {
    assert blocks[..|blocks|] == blocks;
  }

  lemma InStepFacts(blocks: seq<Block>, s: Link, capacity: nat)
    requires InStep(blocks, s, capacity)
    ensures 1 <= s.recv.expected <= |blocks| + 1 && s.acked <= |blocks|
    ensures s.acked == s.recv.expected - 1 || s.acked == s.recv.expected - 2
    ensures s.recv.buf == Concat(blocks) <==> s.recv.expected == |blocks| + 1
  {
    ConcatWhole(blocks, s.recv.expected - 1);
  }

  /**
   The file is whole when the transfer ends exactly when the sender was at its end, or at its last block
   and the receiver had that block or still heard it before the end.
   */
  lemma EndsWholeExactlyWhen(blocks: seq<Block>, s: Link, x: Exchange, capacity: nat)
    requires InStep(blocks, s, capacity) && s.outcome.Going() && Arrives(Sent(blocks, s.acked), x.heard)
    requires Step(s, x, capacity).outcome == Ended
    ensures Step(s, x, capacity).recv.buf == Concat(blocks) <==>
      || s.acked == |blocks|
      || (s.acked == |blocks| - 1 && (s.recv.expected == |blocks| + 1 || Hears(Sent(blocks, s.acked), x.heard)))
  {
    hide Step, Hears, Quiet, Arrives, Sent, Concat, InStep;
    ExchangeEffect(blocks, s, x, capacity);
    InStepFacts(blocks, s, capacity);
    InStepFacts(blocks, Step(s, x, capacity), capacity);
  }

  /** A run that stays quiet until every block is acknowledged ends with the whole file. */
  lemma {:induction false} EndsWithAll(blocks: seq<Block>, xs: seq<Exchange>, capacity: nat)
    requires Possible(blocks, xs, capacity)
    requires forall i :: 0 <= i < |xs| && Run(START, xs[..i], capacity).acked < |blocks| ==> Quiet(xs[i].heard)
    requires Run(START, xs, capacity).outcome == Ended
    ensures Run(START, xs, capacity).recv.buf == Concat(blocks)
  {
    var n := |xs| - 1;
    PossibleInit(blocks, xs, n, capacity);
    AlwaysInStep(blocks, xs[..n], capacity);
    var s := Run(START, xs[..n], capacity);
    if s.outcome.Going() {
      ExchangeEffect(blocks, s, xs[n], capacity);
      EndsWholeExactlyWhen(blocks, s, xs[n], capacity);
    } else {
      forall i | 0 <= i < n && Run(START, xs[..n][..i], capacity).acked < |blocks| ensures Quiet(xs[..n][i].heard) {
        assert xs[..n][..i] == xs[..i];
      }
      EndsWithAll(blocks, xs[..n], capacity);
    }
  }

  lemma SentLength(blocks: seq<Block>, k: nat)
    ensures |Sent(blocks, k)| <= PACKET
  {
    hide Packet;
  }

  lemma CleanBlock(blocks: seq<Block>, s: Link, x: Exchange, capacity: nat)
    requires InStep(blocks, s, capacity) && s.outcome.Going() && s.acked < |blocks|
    requires x == Exchange(Sent(blocks, s.acked), 0)
    ensures var t := Step(s, x, capacity);
      || (t.acked == s.acked + 1 && t.outcome == Ack && t.recv.expected == t.acked + 1)
      || (t.outcome == TooBig && BLOCK * |blocks| > capacity)
  {
    hide Packet, Scan, Concat;
    var n := s.recv.expected - 1;
    assert |Concat(blocks[..n])| == BLOCK * |blocks[..n]| == BLOCK * n;
    CleanScan(s.recv, s.acked, blocks[s.acked], capacity);
  }

  lemma CleanEnd(blocks: seq<Block>, s: Link, x: Exchange, capacity: nat)
    requires InStep(blocks, s, capacity) && s.outcome.Going() && s.acked == |blocks|
    requires x == Exchange(Sent(blocks, s.acked), 0)
    ensures Step(s, x, capacity).outcome == Ended && Step(s, x, capacity).recv.buf == Concat(blocks)
  {
    hide Packet, Scan, Concat;
    assert blocks[..|blocks|] == blocks;
    EotScan(s.recv, capacity);
  }

  /** An exchange without loss or damage brings the sender on: to the next block, to the end, or to the refusal. */
  lemma CleanExchangeAdvances(blocks: seq<Block>, s: Link, x: Exchange, capacity: nat)
    requires InStep(blocks, s, capacity) && s.outcome.Going() && x == Exchange(Sent(blocks, s.acked), 0)
    ensures Arrives(Sent(blocks, s.acked), x.heard)
    ensures var t := Step(s, x, capacity);
      || (t.acked == s.acked + 1 && t.outcome == Ack && t.recv.expected == t.acked + 1)
      || (t.outcome.Ended? && t.recv.buf == Concat(blocks))
      || (t.outcome.TooBig? && BLOCK * |blocks| > capacity)
  {
    hide Arrives, Sent, Concat, InStep, Step, Looks;
    InStepFacts(blocks, s, capacity);
    SentLength(blocks, s.acked);
    ChannelAdmits(x.heard, x.heard);
    if s.acked < |blocks| {
      CleanBlock(blocks, s, x, capacity);
    } else {
      CleanEnd(blocks, s, x, capacity);
    }
  }

  lemma CleanScan(r: Recv, k: nat, data: Block, capacity: nat)
    requires r.expected == k + 1 || r.expected == k + 2
    ensures Scan(r, Packet(k + 1, data), capacity)
      == if r.expected == k + 2 then (r, [Ack])
         else if |r.buf| + BLOCK > capacity then (r, [TooBig])
         else (Recv(r.buf + data, k + 2), [Ack])
  {
    hide Looks;
    hide Packet, Scan, Span, Data;
    var h := Packet(k + 1, data);
    PacketLooks(k + 1, data, h);
    LooksIsLong(h);
    Consecutive(k + 1);
    ScanUnfolds(r, h, capacity);
  }

  lemma EotScan(r: Recv, capacity: nat)
    ensures Scan(r, [EOT], capacity) == (r, [Ended])
  {
    ScanUnfolds(r, [EOT], capacity);
  }

  // ----- an end that comes too early -----

  /**
   Block numbers that look like EOT or CAN: when the start of the packet is lost, its number is taken for the
   end of the transfer, at once or after a byte that begins nothing.
   */
  lemma LostStartEnds(r: Recv, n: nat, data: Block, g: byte, capacity: nat)
    requires (n % 256 == EOT || n % 256 == CAN) && g != SOH && g != EOT && g != CAN
    ensures var end := if n % 256 == EOT then Ended else Cancelled;
      && Scan(r, Packet(n, data)[1..], capacity) == (r, [end])
      && Scan(r, [g] + Packet(n, data)[1..], capacity) == (r, [Nak, end])
  {
    var end := if n % 256 == EOT then Ended else Cancelled;
    var rest: Heard := Packet(n, data)[1..];
    var h: Heard := [g] + rest;
    assert rest[0] == n % 256 && h[0] == g && Span(h) == 1 && h[1..] == rest;
    hide Packet, Scan;
    ScanUnfolds(r, rest, capacity);
    assert Scan(r, rest, capacity) == (r, [end]);
    assert Round(r, h, capacity) == (r, Nak);
    ScanUnfolds(r, h, capacity);
    assert [Nak] + [end] == [Nak, end];
  }

  /** The first `k` exchanges when nothing is lost or damaged. */
  function CleanRun(blocks: seq<Block>, k: nat): (xs: seq<Exchange>)
    ensures |xs| == k
  {
    seq(k, i requires 0 <= i < k => Exchange(Sent(blocks, i), 0))
  }

  lemma {:induction false} CleanRunDelivers(blocks: seq<Block>, k: nat, capacity: nat)
    requires k <= |blocks| && BLOCK * |blocks| <= capacity
    ensures Possible(blocks, CleanRun(blocks, k), capacity)
    ensures var t := Run(START, CleanRun(blocks, k), capacity);
      t.acked == k && t.recv.expected == k + 1 && t.outcome.Going() && InStep(blocks, t, capacity)
  {
    hide Arrives, Sent, InStep, Scan, Concat;
    if k == 0 {
      NothingYet(blocks, capacity);
    } else {
      CleanRunDelivers(blocks, k - 1, capacity);
      var xs, x := CleanRun(blocks, k - 1), Exchange(Sent(blocks, k - 1), 0);
      assert CleanRun(blocks, k) == xs + [x];
      CleanExchangeAdvances(blocks, Run(START, xs, capacity), x, capacity);
      OneMore(blocks, xs, x, capacity);
      CleanSent(blocks, Run(START, xs, capacity), x, capacity);
    }
  }

  lemma NothingYet(blocks: seq<Block>, capacity: nat)
    ensures InStep(blocks, START, capacity)
  {
    assert blocks[..0] == [];
  }

  /** A block that was sent and came through does not end the transfer. */
  lemma CleanSent(blocks: seq<Block>, s: Link, x: Exchange, capacity: nat)
    requires InStep(blocks, s, capacity) && s.outcome.Going() && s.acked < |blocks| && BLOCK * |blocks| <= capacity
    requires x == Exchange(Sent(blocks, s.acked), 0)
    ensures var t := Step(s, x, capacity);
      t.acked == s.acked + 1 && t.outcome == Ack && t.recv.expected == t.acked + 1 && InStep(blocks, t, capacity)
  {
    hide Arrives, Packet, Scan, Concat, Quiet, Hears;
    ChannelAdmits(x.heard, x.heard);
    CleanScan(s.recv, s.acked, blocks[s.acked], capacity);
    ExchangeEffect(blocks, s, x, capacity);
    CleanExchangeAdvances(blocks, s, x, capacity);
  }

  lemma OneMore(blocks: seq<Block>, xs: seq<Exchange>, x: Exchange, capacity: nat)
    requires Possible(blocks, xs, capacity) && Run(START, xs, capacity).outcome.Going()
    requires Arrives(Sent(blocks, Run(START, xs, capacity).acked), x.heard)
    ensures Possible(blocks, xs + [x], capacity)
    ensures Run(START, xs + [x], capacity) == Step(Run(START, xs, capacity), x, capacity)
  {
    hide Step, Arrives, Sent;
    var ys := xs + [x];
    assert ys[..|xs|] == xs;
    forall i | 0 <= i < |ys| && Run(START, ys[..i], capacity).outcome.Going()
      ensures Arrives(Sent(blocks, Run(START, ys[..i], capacity).acked), ys[i].heard)
    {
      if i < |xs| {
        assert ys[..i] == xs[..i] && ys[i] == xs[i];
      }
    }
  }

  /** Any file of four blocks or more can be cut off after three, by the loss of one byte. */
  lemma OneLostByteEndsEarly(blocks: seq<Block>, capacity: nat) returns (xs: seq<Exchange>)
    requires |blocks| >= 4 && BLOCK * |blocks| <= capacity
    ensures Possible(blocks, xs, capacity) && |xs| == 4
    ensures xs[3].heard == Packet(4, blocks[3])[1..]
    ensures Run(START, xs, capacity).outcome == Ended && Run(START, xs, capacity).recv.buf == Concat(blocks[..3])
  {
    hide Arrives, Possible, Concat, Scan, Packet, Checksum;
    CleanRunDelivers(blocks, 3, capacity);
    var h: Heard := Packet(4, blocks[3])[1..];
    var x := Exchange(h, 0);
    ChannelAdmits(Packet(4, blocks[3]), h);
    LostStartEnds(Run(START, CleanRun(blocks, 3), capacity).recv, 4, blocks[3], 0, capacity);
    OneMore(blocks, CleanRun(blocks, 3), x, capacity);
    xs := CleanRun(blocks, 3) + [x];
  }
}
