/** The base64 command: an encoder that wraps its lines, and a decoder that shifts bits through an accumulator. */
module Base64 {
  import opened Basics

  const LINE: nat := 76

  // ----- the alphabet -----

  type Sextet = v: nat | v < 64

  function Symbol(v: Sextet): char {
    if v < 26 then ('A' as int + v) as char
    else if v < 52 then ('a' as int + v - 26) as char
    else if v < 62 then ('0' as int + v - 52) as char
    else if v == 62 then '+'
    else '/'
  }

  /** The value of a character of the alphabet. */
  function SextetOf(c: char): (r: Option<Sextet>)
    ensures r.Some? ==> Symbol(r.value) == c
  {
    if 'A' <= c <= 'Z' then Some(c as int - 'A' as int)
    else if 'a' <= c <= 'z' then Some(c as int - 'a' as int + 26)
    else if '0' <= c <= '9' then Some(c as int - '0' as int + 52)
    else if c == '+' then Some(62)
    else if c == '/' then Some(63)
    else None
  }

  lemma SymbolValue(v: Sextet)
    ensures SextetOf(Symbol(v)) == Some(v) && Symbol(v) != '='
  {
  }

  // ----- encoding -----

  /** Three bytes as four characters; missing bytes count as zero and leave padding. */
  function Group(data: seq<byte>): (s: string)
    requires data != []
    ensures |s| == 4
  {
    var b0 := data[0] as int;
    var b1 := if |data| > 1 then data[1] as int else 0;
    var b2 := if |data| > 2 then data[2] as int else 0;
    var v := b0 * 0x1_0000 + b1 * 0x100 + b2;
    [Symbol(v / 0x4_0000 % 0x40), Symbol(v / 0x1000 % 0x40),
     if |data| > 1 then Symbol(v / 0x40 % 0x40) else '=',
     if |data| > 2 then Symbol(v % 0x40) else '=']
  }

  /** The encoding without line breaks. */
  function Plain(data: seq<byte>): string {
    if data == [] then "" else if |data| <= 3 then Group(data) else Group(data[..3]) + Plain(data[3..])
  }

  function Wrap(s: string): seq<string> {
    if s == "" then [] else if |s| <= LINE then [s] else [s[..LINE]] + Wrap(s[LINE..])
  }

  /** What print_line makes of the lines. */
  function Unlines(lines: seq<string>): string {
    if lines == [] then "" else lines[0] + "\n" + Unlines(lines[1..])
  }

  /** A full line is split off. */
  lemma WrapLine(line: string, rest: string)
    requires |line| == LINE
    ensures Wrap(line + rest) == [line] + Wrap(rest)
  {
    assert (line + rest)[..LINE] == line && (line + rest)[LINE..] == rest;
    if rest == "" { assert line + rest == line; }
  }

  /** The bytes from `i` on, if any. */
  function From(data: seq<byte>, i: nat): seq<byte> { if i < |data| then data[i..] else [] }

  method Encode(data: seq<byte>) returns (lines: seq<string>)
    ensures lines == Wrap(Plain(data))
  {
    hide Wrap, Group, Plain, From;
    lines := [];
    var lineOut := new char[80];
    var lo: nat, col: nat := 0, 0;
    var i: nat := 0;
    EncodeBegin(data, lineOut[..0]);
    while i < |data|
      invariant lo == col < LINE && lo % 4 == 0
      invariant Wrap(Plain(data)) == lines + Wrap(lineOut[..lo] + Plain(From(data, i)))
      decreases |data| - i
    {
      var g := EncodeGroup(data, i);
      ghost var line := lineOut[..lo];
      EncodeStep(data, i, line, g);
      lineOut[lo], lineOut[lo + 1], lineOut[lo + 2], lineOut[lo + 3] := g[0], g[1], g[2], g[3];
      lo, col := lo + 4, col + 4;
      assert lineOut[..lo] == line + g;
      i := i + 3;
      if col >= LINE {
        WrapLine(lineOut[..lo], Plain(From(data, i)));
        ghost var tail := Plain(From(data, i));
        lines := lines + [lineOut[..lo]];
        lo, col := 0, 0;
        assert lineOut[..0] + tail == tail;
      }
    }
    EncodeEnd(data, i, lineOut[..lo]);
    if lo > 0 {
      lines := lines + [lineOut[..lo]];
    }
  }

  lemma EncodeBegin(data: seq<byte>, line: string)
    requires line == ""
    ensures line + Plain(From(data, 0)) == Plain(data)
  {
    assert From(data, 0) == data;
  }

  lemma EncodeStep(data: seq<byte>, i: nat, line: string, g: string)
    requires i < |data| && g == Group(if i + 3 <= |data| then data[i..i + 3] else data[i..])
    ensures line + Plain(From(data, i)) == line + g + Plain(From(data, i + 3))
  {
    PlainStep(data, i);
  }

  lemma EncodeEnd(data: seq<byte>, i: nat, line: string)
    requires i >= |data| && |line| < LINE
    ensures Wrap(line + Plain(From(data, i))) == if line == "" then [] else [line]
  {
    assert line + "" == line;
  }

  lemma PlainStep(data: seq<byte>, i: nat)
    requires i < |data|
    ensures Plain(data[i..]) == Group(if i + 3 <= |data| then data[i..i + 3] else data[i..])
                              + Plain(if i + 3 < |data| then data[i + 3..] else [])
  {
    var rest := data[i..];
    if |rest| > 3 {
      assert rest[..3] == data[i..i + 3] && rest[3..] == data[i + 3..];
    } else if |rest| == 3 {
      assert rest == data[i..i + 3];
    }
  }

  /** One round of the encoding loop. */
  method EncodeGroup(data: seq<byte>, i: nat) returns (s: string)
    requires i < |data|
    ensures s == Group(if i + 3 <= |data| then data[i..i + 3] else data[i..])
  {
    var b0 := data[i] as int;
    var b1 := if i + 1 < |data| then data[i + 1] as int else 0;
    var b2 := if i + 2 < |data| then data[i + 2] as int else 0;
    var v := b0 * 0x1_0000 + b1 * 0x100 + b2;
    s := [Symbol(v / 0x4_0000 % 0x40), Symbol(v / 0x1000 % 0x40),
          if i + 1 < |data| then Symbol(v / 0x40 % 0x40) else '=',
          if i + 2 < |data| then Symbol(v % 0x40) else '='];
  }

  // ----- decoding -----

  function Pow2(n: nat): (p: nat)
    ensures p > 0
  {
    if n == 0 then 1 else 2 * Pow2(n - 1)
  }

  /** The accumulator is 32 bits wide: older bits fall out at the top. */
  function Pushed(acc: nat, v: Sextet): nat { (acc * 0x40 + v) % 0x1_0000_0000 }

  /** The byte above the lowest `bits` bits. */
  function ByteAt(acc: nat, bits: nat): byte { acc / Pow2(bits) % 0x100 }

  /** The decoder's outcome from an accumulator with `bits` pending bits, at most `cap` bytes in all. */
  function DecodeFrom(text: string, acc: nat, bits: nat, out: seq<byte>, cap: nat): seq<byte>
    requires bits < 8
    decreases |text|
  {
    if text == "" || |out| >= cap || text[0] == '=' then out
    else
      match SextetOf(text[0])
      case None => DecodeFrom(text[1..], acc, bits, out, cap)
      case Some(v) =>
        var a := Pushed(acc, v);
        if bits + 6 >= 8 then DecodeFrom(text[1..], a, bits - 2, out + [ByteAt(a, bits - 2)], cap)
        else DecodeFrom(text[1..], a, bits + 6, out, cap)
  }

  function Decoded(text: string, cap: nat): seq<byte> { DecodeFrom(text, 0, 0, [], cap) }

  /** Decodes into a buffer; between two characters fewer than eight bits are pending. */
  method Decode(text: string, buf: array<byte>) returns (di: nat)
    modifies buf
    ensures di <= buf.Length && buf[..di] == Decoded(text, buf.Length)
  {
    hide SextetOf, Pushed, ByteAt;
    di := 0;
    var acc, bits := 0, 0;
    var i := 0;
    while i < |text| && di < buf.Length
      invariant i <= |text| && di <= buf.Length && 0 <= bits < 8 && acc >= 0
      invariant DecodeFrom(text[i..], acc, bits, buf[..di], buf.Length) == Decoded(text, buf.Length)
    {
      assert text[i..][0] == text[i] && text[i..][1..] == text[i + 1..];
      if text[i] == '=' {
        break;
      }
      var v := SextetOf(text[i]);
      if v.Some? {
        acc := Pushed(acc, v.value);
        bits := bits + 6;
        if bits >= 8 {
          bits := bits - 8;
          ghost var was := buf[..di];
          buf[di] := ByteAt(acc, bits);
          di := di + 1;
          assert buf[..di] == was + [ByteAt(acc, bits)];
        }
      }
      i := i + 1;
    }
  }

  // ----- round trip -----

  /** The characters that the decoder looks at. */
  function Strip(text: string): string {
    if text == "" then ""
    else if SextetOf(text[0]).Some? || text[0] == '=' then [text[0]] + Strip(text[1..])
    else Strip(text[1..])
  }

  lemma {:induction false} DecodeStripped(text: string, acc: nat, bits: nat, out: seq<byte>, cap: nat)
    requires bits < 8
    ensures DecodeFrom(text, acc, bits, out, cap) == DecodeFrom(Strip(text), acc, bits, out, cap)
    decreases |text|
  {
    hide SextetOf, Pushed, ByteAt;
    if text != "" && |out| < cap && text[0] != '=' {
      var v := SextetOf(text[0]);
      if v.None? {
        DecodeStripped(text[1..], acc, bits, out, cap);
      } else {
        var a := Pushed(acc, v.value);
        assert Strip(text)[1..] == Strip(text[1..]);
        if bits + 6 >= 8 {
          DecodeStripped(text[1..], a, bits - 2, out + [ByteAt(a, bits - 2)], cap);
        } else {
          DecodeStripped(text[1..], a, bits + 6, out, cap);
        }
      }
    } else if text != "" && text[0] == '=' {
      assert Strip(text)[0] == '=';
    }
  }

  lemma {:induction false} StripJoin(s: string, t: string)
    ensures Strip(s + t) == Strip(s) + Strip(t)
  {
    hide SextetOf;
    if s == "" {
      assert s + t == t;
    } else {
      assert (s + t)[1..] == s[1..] + t;
      StripJoin(s[1..], t);
    }
  }

  lemma StripLine(line: string, rest: string)
    ensures Strip(line + "\n" + rest) == Strip(line) + Strip(rest)
  {
    StripJoin(line + "\n", rest);
    StripJoin(line, "\n");
    assert Strip("\n") == "";
  }

  /** Breaking into lines only adds characters that the decoder skips. */
  lemma {:induction false} StripUnlines(s: string)
    ensures Strip(Unlines(Wrap(s))) == Strip(s)
    decreases |s|
  {
    hide Strip;
    if s != "" {
      var line := if |s| <= LINE then s else s[..LINE];
      var rest := if |s| <= LINE then "" else s[LINE..];
      StripUnlines(rest);
      StripLine(line, Unlines(Wrap(rest)));
      StripJoin(line, rest);
      assert s == line + rest;
      WrapSplit(s, line, rest);
      UnlinesCons(line, Wrap(rest));
    }
  }

  lemma WrapSplit(s: string, line: string, rest: string)
    requires s != "" && line == (if |s| <= LINE then s else s[..LINE])
      && rest == (if |s| <= LINE then "" else s[LINE..])
    ensures Wrap(s) == [line] + Wrap(rest)
  {
  }

  lemma UnlinesCons(line: string, lines: seq<string>)
    ensures Unlines([line] + lines) == line + "\n" + Unlines(lines)
  {
    assert ([line] + lines)[1..] == lines;
  }

  lemma {:induction false} StripPlain(data: seq<byte>)
    ensures Strip(Plain(data)) == Plain(data)
  {
    if data != [] {
      var g := Group(if |data| <= 3 then data else data[..3]);
      StripGroup(if |data| <= 3 then data else data[..3]);
      if |data| > 3 {
        StripPlain(data[3..]);
        StripJoin(g, Plain(data[3..]));
      }
    }
  }

  lemma StripGroup(data: seq<byte>)
    requires data != []
    ensures Strip(Group(data)) == Group(data)
  {
    hide Group, SextetOf;
    var s := Group(data);
    forall i | 0 <= i < 4 ensures SextetOf(s[i]).Some? || s[i] == '=' {
      GroupSymbol(data, i);
    }
    StripKeeps(s);
  }

  lemma GroupSymbol(data: seq<byte>, i: nat)
    requires data != [] && i < 4
    ensures SextetOf(Group(data)[i]).Some? || Group(data)[i] == '='
  {
    hide SextetOf, Symbol;
    forall v: Sextet ensures SextetOf(Symbol(v)).Some? { SymbolValue(v); }
  }

  lemma {:induction false} StripKeeps(s: string)
    requires forall i :: 0 <= i < |s| ==> SextetOf(s[i]).Some? || s[i] == '='
    ensures Strip(s) == s
  {
    hide SextetOf;
    if s != "" {
      StripKeeps(s[1..]);
    }
  }

  // ----- the arithmetic of one group -----

  /** One character of the alphabet is taken in. */
  lemma TakesSymbol(s: string, v: Sextet, acc: nat, bits: nat, out: seq<byte>, cap: nat)
    requires s != "" && s[0] == Symbol(v) && bits < 8 && |out| < cap
    ensures var a := Pushed(acc, v);
      DecodeFrom(s, acc, bits, out, cap) ==
        if bits >= 2 then DecodeFrom(s[1..], a, bits - 2, out + [ByteAt(a, bits - 2)], cap)
        else DecodeFrom(s[1..], a, bits + 6, out, cap)
  {
    hide SextetOf, Symbol;
    SymbolValue(v);
  }

  lemma Low64(m: int, v: Sextet)
    ensures (m * 0x40 + v) % 0x40 == v && (m * 0x40 + v) / 0x40 == m
  {
  }

  lemma Same64(m: int, n: int, q: int)
    requires n == m + q * 0x40
    ensures n % 0x40 == m % 0x40
  {
  }

  lemma PushedParts(acc: nat, v: Sextet) returns (m: int, t: int)
    ensures Pushed(acc, v) == m * 0x40 + v && acc == m + t * 0x40
  {
    var q := (acc * 0x40 + v) / 0x1_0000_0000;
    m, t := acc - q * 0x400_0000, q * 0x10_0000;
  }

  /** The pending bits are the low bits of the accumulator. */
  lemma PushedLow(acc: nat, v: Sextet)
    ensures Pushed(acc, v) % 0x40 == v
    ensures Pushed(acc, v) / 0x40 % 0x40 == acc % 0x40
  {
    hide Pushed;
    var m, t := PushedParts(acc, v);
    Low64(m, v);
    Same64(m, acc, t);
  }

  /** The bytes that four sextets hold. */
  lemma GroupBytes(acc: nat, s0: Sextet, s1: Sextet, s2: Sextet, s3: Sextet)
    ensures var a1 := Pushed(acc, s0);
      var a2 := Pushed(a1, s1);
      var a3 := Pushed(a2, s2);
      var a4 := Pushed(a3, s3);
      && ByteAt(a2, 4) == s0 * 4 + s1 / 0x10
      && ByteAt(a3, 2) == s1 % 0x10 * 0x10 + s2 / 4
      && ByteAt(a4, 0) == s2 % 4 * 0x40 + s3
  {
    hide Pushed;
    var a1 := Pushed(acc, s0);
    var a2 := Pushed(a1, s1);
    var a3 := Pushed(a2, s2);
    PushedLow(acc, s0);
    PushedLow(a1, s1);
    PushedLow(a2, s2);
    PushedLow(a3, s3);
    assert Pow2(4) == 16 && Pow2(2) == 4 && Pow2(0) == 1;
    Middle(a2, s0, s1);
    Middle(a3, s1, s2);
    Middle(Pushed(a3, s3), s2, s3);
  }

  lemma Middle(a: nat, high: Sextet, low: Sextet)
    requires a % 0x40 == low && a / 0x40 % 0x40 == high
    ensures a / 0x10 % 0x100 == high * 4 + low / 0x10
    ensures a / 4 % 0x100 == high % 0x10 * 0x10 + low / 4
    ensures a % 0x100 == high % 4 * 0x40 + low
  {
    var q := a / 0x1000;
    assert a == q * 0x1000 + high * 0x40 + low;
    assert a / 0x10 == q * 0x100 + (high * 4 + low / 0x10);
    assert a / 4 == q * 0x400 + high / 0x10 * 0x100 + (high % 0x10 * 0x10 + low / 4);
    assert a == q * 0x1000 + high / 4 * 0x100 + (high % 4 * 0x40 + low);
    Rest(a / 0x10, q, high * 4 + low / 0x10);
    Rest(a / 4, q * 4 + high / 0x10, high % 0x10 * 0x10 + low / 4);
    Rest(a, q * 0x10 + high / 4, high % 4 * 0x40 + low);
  }

  lemma Rest(n: nat, q: nat, r: nat)
    requires n == q * 0x100 + r && r < 0x100
    ensures n % 0x100 == r
  {
  }

  lemma Digit64(n: nat, q: nat, d: nat, r: nat, unit: nat)
    requires unit == 0x40 || unit == 0x1000 || unit == 0x4_0000 || unit == 1
    requires n == (q * 0x40 + d) * unit + r && d < 0x40 && r < unit
    ensures n / unit % 0x40 == d
  {
    assert n / unit == q * 0x40 + d;
  }

  /** How the bytes of a group are spread over its sextets. */
  lemma GroupParts(b0: byte, b1: byte, b2: byte)
    ensures var v := b0 as int * 0x1_0000 + b1 as int * 0x100 + b2 as int;
      && v / 0x4_0000 % 0x40 == b0 / 4 && v / 0x1000 % 0x40 == b0 % 4 * 0x10 + b1 / 0x10
      && v / 0x40 % 0x40 == b1 % 0x10 * 4 + b2 / 0x40 && v % 0x40 == b2 % 0x40
  {
    var v: nat := b0 as int * 0x1_0000 + b1 as int * 0x100 + b2 as int;
    var s0: nat, s1: nat, s2: nat, s3: nat := b0 / 4, b0 % 4 * 0x10 + b1 / 0x10, b1 % 0x10 * 4 + b2 / 0x40, b2 % 0x40;
    assert v == s0 * 0x4_0000 + s1 * 0x1000 + s2 * 0x40 + s3;
    Digit64(v, 0, s0, s1 * 0x1000 + s2 * 0x40 + s3, 0x4_0000);
    Digit64(v, s0, s1, s2 * 0x40 + s3, 0x1000);
    Digit64(v, s0 * 0x40 + s1, s2, s3, 0x40);
    Digit64(v, s0 * 0x1000 + s1 * 0x40 + s2, s3, 0, 1);
  }

  /** The sextets of a group. */
  lemma GroupSymbols(data: seq<byte>)
    requires data != []
    ensures var b0: int := data[0];
      var b1: int := if |data| > 1 then data[1] else 0;
      var b2: int := if |data| > 2 then data[2] else 0;
      Group(data) == [Symbol(b0 / 4), Symbol(b0 % 4 * 0x10 + b1 / 0x10),
                      if |data| > 1 then Symbol(b1 % 0x10 * 4 + b2 / 0x40) else '=',
                      if |data| > 2 then Symbol(b2 % 0x40) else '=']
  {
    hide Symbol;
    GroupParts(data[0], if |data| > 1 then data[1] else 0, if |data| > 2 then data[2] else 0);
  }

  lemma SextetBytes(b0: int, b1: int, b2: int)
    requires 0 <= b0 < 0x100 && 0 <= b1 < 0x100 && 0 <= b2 < 0x100
    ensures b0 / 4 * 4 + (b0 % 4 * 0x10 + b1 / 0x10) / 0x10 == b0
    ensures (b0 % 4 * 0x10 + b1 / 0x10) % 0x10 * 0x10 + (b1 % 0x10 * 4 + b2 / 0x40) / 4 == b1
    ensures (b1 % 0x10 * 4 + b2 / 0x40) % 4 * 0x40 + b2 % 0x40 == b2
  {
  }

  /** The sextets of a group, and the bytes that the decoder takes from them. */
  lemma GroupYields(data: seq<byte>, acc: nat) returns (s: (Sextet, Sextet, Sextet, Sextet), a: (nat, nat, nat, nat))
    requires 1 <= |data| <= 3
    ensures Group(data) == [Symbol(s.0), Symbol(s.1), if |data| > 1 then Symbol(s.2) else '=',
                            if |data| > 2 then Symbol(s.3) else '=']
    ensures a.0 == Pushed(acc, s.0) && a.1 == Pushed(a.0, s.1) && a.2 == Pushed(a.1, s.2) && a.3 == Pushed(a.2, s.3)
    ensures ByteAt(a.1, 4) == data[0]
    ensures |data| > 1 ==> ByteAt(a.2, 2) == data[1]
    ensures |data| > 2 ==> ByteAt(a.3, 0) == data[2]
  {
    hide Group, Symbol, Pushed, ByteAt;
    var b0: int := data[0];
    var b1: int := if |data| > 1 then data[1] else 0;
    var b2: int := if |data| > 2 then data[2] else 0;
    s := (b0 / 4, b0 % 4 * 0x10 + b1 / 0x10, b1 % 0x10 * 4 + b2 / 0x40, b2 % 0x40);
    GroupSymbols(data);
    SextetBytes(b0, b1, b2);
    GroupBytes(acc, s.0, s.1, s.2, s.3);
    a := (Pushed(acc, s.0), 0, 0, 0);
    a := (a.0, Pushed(a.0, s.1), 0, 0);
    a := (a.0, a.1, Pushed(a.1, s.2), 0);
    a := (a.0, a.1, a.2, Pushed(a.2, s.3));
  }

  /** The first two symbols of a group yield its first byte. */
  lemma DecodesPair(t: string, s0: Sextet, s1: Sextet, acc: nat, out: seq<byte>, cap: nat)
    requires |t| >= 2 && t[0] == Symbol(s0) && t[1] == Symbol(s1) && |out| < cap
    ensures var a := Pushed(Pushed(acc, s0), s1);
      DecodeFrom(t, acc, 0, out, cap) == DecodeFrom(t[2..], a, 4, out + [ByteAt(a, 4)], cap)
  {
    hide Symbol, Pushed, ByteAt, DecodeFrom;
    assert t[1..][1..] == t[2..];
    TakesSymbol(t, s0, acc, 0, out, cap);
    TakesSymbol(t[1..], s1, Pushed(acc, s0), 6, out, cap);
  }

  /** A full group yields its three bytes and leaves no bits pending. */
  lemma DecodesFull(data: seq<byte>, rest: string, acc: nat, out: seq<byte>, cap: nat) returns (last: nat)
    requires |data| == 3 && |out| + 3 <= cap
    ensures DecodeFrom(Group(data) + rest, acc, 0, out, cap) == DecodeFrom(rest, last, 0, out + data, cap)
  {
    hide Group, Symbol, Pushed, ByteAt, DecodeFrom;
    var s, a := GroupYields(data, acc);
    var t := Group(data) + rest;
    assert t[2..][1..] == t[3..] && t[3..][1..] == rest;
    DecodesPair(t, s.0, s.1, acc, out, cap);
    TakesSymbol(t[2..], s.2, a.1, 4, out + [data[0]], cap);
    TakesSymbol(t[3..], s.3, a.2, 2, out + [data[0]] + [data[1]], cap);
    assert out + [data[0]] + [data[1]] + [data[2]] == out + data;
    last := a.3;
  }

  /** A group padded with "==" yields its one byte, and decoding stops there. */
  lemma DecodesOne(data: seq<byte>, acc: nat, out: seq<byte>, cap: nat)
    requires |data| == 1 && |out| + 1 <= cap
    ensures DecodeFrom(Group(data), acc, 0, out, cap) == out + data
  {
    hide Group, Symbol, Pushed, ByteAt, DecodeFrom;
    var s, a := GroupYields(data, acc);
    var t := Group(data);
    DecodesPair(t, s.0, s.1, acc, out, cap);
    StopsAtPadding(t[2..], a.1, 4, out + [data[0]], cap);
    assert [data[0]] == data;
  }

  /** A group padded with "=" yields its two bytes, and decoding stops there. */
  lemma DecodesTwo(data: seq<byte>, acc: nat, out: seq<byte>, cap: nat)
    requires |data| == 2 && |out| + 2 <= cap
    ensures DecodeFrom(Group(data), acc, 0, out, cap) == out + data
  {
    hide Group, Symbol, Pushed, ByteAt, DecodeFrom;
    var s, a := GroupYields(data, acc);
    var t := Group(data);
    assert t[2..][1..] == t[3..];
    DecodesPair(t, s.0, s.1, acc, out, cap);
    TakesSymbol(t[2..], s.2, a.1, 4, out + [data[0]], cap);
    StopsAtPadding(t[3..], a.2, 2, out + [data[0]] + [data[1]], cap);
    assert out + [data[0]] + [data[1]] == out + data;
  }

  lemma StopsAtPadding(text: string, acc: nat, bits: nat, out: seq<byte>, cap: nat)
    requires text != "" && text[0] == '=' && bits < 8
    ensures DecodeFrom(text, acc, bits, out, cap) == out
  {
  }

  lemma {:induction false} DecodesPlain(data: seq<byte>, acc: nat, out: seq<byte>, cap: nat)
    requires |out| + |data| <= cap
    ensures DecodeFrom(Plain(data), acc, 0, out, cap) == out + data
    decreases |data|
  {
    hide Group, Pushed, Pow2;
    if data == [] {
    } else if |data| == 1 {
      DecodesOne(data, acc, out, cap);
    } else if |data| == 2 {
      DecodesTwo(data, acc, out, cap);
    } else if |data| == 3 {
      var a := DecodesFull(data, "", acc, out, cap);
      assert Group(data) + "" == Group(data);
    } else {
      var a := DecodesFull(data[..3], Plain(data[3..]), acc, out, cap);
      DecodesPlain(data[3..], a, out + data[..3], cap);
      assert out + data[..3] + data[3..] == out + data;
    }
  }

  /** Decoding what the encoder printed, lines and padding included, returns the original bytes. */
  lemma RoundTrip(data: seq<byte>, cap: nat)
    requires |data| <= cap
    ensures Decoded(Unlines(Wrap(Plain(data))), cap) == data
  {
    var text := Unlines(Wrap(Plain(data)));
    DecodeStripped(text, 0, 0, [], cap);
    StripUnlines(Plain(data));
    StripPlain(data);
    DecodesPlain(data, 0, [], cap);
  }
}
