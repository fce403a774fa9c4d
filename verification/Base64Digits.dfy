/** Base64 by its alphabet and its digits: four to the base 64 for three to the base 256. */
module Base64Digits {
  import opened Basics
  import opened Base64

  const UPPER := "ABCDEFGHIJKLMNOPQRSTUVWXYZ"
  const LOWER := "abcdefghijklmnopqrstuvwxyz"
  const REST := "0123456789+/"

  lemma UpperSymbols(v: Sextet)
    requires v < 26
    ensures Symbol(v) == UPPER[v]
  {
  }

  lemma LowerSymbols(v: Sextet)
    requires 26 <= v < 52
    ensures Symbol(v) == LOWER[v - 26]
  {
  }

  lemma RestSymbols(v: Sextet)
    requires 52 <= v
    ensures Symbol(v) == REST[v - 52]
  {
  }

  /** The symbols in order: capitals, small letters, digits, plus and slash. */
  lemma Alphabet(v: Sextet)
    ensures Symbol(v) == (UPPER + LOWER + REST)[v]
  {
    hide Symbol;
    if v < 26 {
      UpperSymbols(v);
    } else if v < 52 {
      LowerSymbols(v);
    } else {
      RestSymbols(v);
    }
  }

  /** The value that a symbol has as a digit. */
  function Digit(c: char): nat { match SextetOf(c) case Some(v) => v case None => 0 }

  lemma FourSextets(n: nat)
    requires n < 0x100_0000
    ensures n / 0x4_0000 < 0x40
    ensures n / 0x4_0000 % 0x40 * 0x4_0000 + n / 0x1000 % 0x40 * 0x1000 + n / 0x40 % 0x40 * 0x40 + n % 0x40 == n
  {
    var a := n / 0x40;
    var b := a / 0x40;
    assert n / 0x1000 == b && b / 0x40 == n / 0x4_0000;
  }

  /** The number that up to three bytes are, as if missing ones were zero. */
  function Whole(data: seq<byte>): (n: nat)
    requires 1 <= |data| <= 3
    ensures n < 0x100_0000
  {
    data[0] * 0x1_0000 + (if |data| > 1 then data[1] * 0x100 else 0) + (if |data| > 2 then data[2] as int else 0)
  }

  lemma MissingDigits(data: seq<byte>)
    requires 1 <= |data| <= 3
    ensures |data| < 2 ==> Whole(data) / 0x40 % 0x40 == 0
    ensures |data| < 3 ==> Whole(data) % 0x40 == 0
  {
  }

  lemma GroupSymbols(data: seq<byte>)
    requires 1 <= |data| <= 3
    ensures var s, n := Group(data), Whole(data);
      && s[0] == Symbol(n / 0x4_0000 % 0x40) && s[1] == Symbol(n / 0x1000 % 0x40)
      && s[2] == (if |data| > 1 then Symbol(n / 0x40 % 0x40) else '=')
      && s[3] == (if |data| > 2 then Symbol(n % 0x40) else '=')
  {
    hide Symbol;
  }

  lemma DigitOf(v: Sextet)
    ensures Digit(Symbol(v)) == v && Symbol(v) != '=' && Digit('=') == 0
  {
    SymbolValue(v);
  }

  /** A group's digits are the digits of its bytes; padding stands for the digits of the bytes that are missing. */
  lemma GroupDigits(data: seq<byte>)
    requires 1 <= |data| <= 3
    ensures var s := Group(data);
      && Digit(s[0]) * 0x4_0000 + Digit(s[1]) * 0x1000 + Digit(s[2]) * 0x40 + Digit(s[3]) == Whole(data)
      && s[0] != '=' && s[1] != '=' && (s[2] == '=' <==> |data| < 2) && (s[3] == '=' <==> |data| < 3)
  {
    hide Symbol, SextetOf, Digit, Group, Whole;
    var s, n := Group(data), Whole(data);
    GroupSymbols(data);
    MissingDigits(data);
    FourSextets(n);
    var p, q, r, t := n / 0x4_0000 % 0x40, n / 0x1000 % 0x40, n / 0x40 % 0x40, n % 0x40;
    DigitOf(p);
    DigitOf(q);
    DigitOf(r);
    DigitOf(t);
    assert Digit(s[0]) == p && Digit(s[1]) == q && Digit(s[2]) == r && Digit(s[3]) == t;
  }
}
