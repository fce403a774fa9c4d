/** What operators and numerals are worth, told by their digits and by the laws of division. */
module ExprMeaning {
  import opened Basics
  import opened CInts
  import opened ExprGrammar
  import opened Evaluator
  import opened ExprProof

  function Power(base: nat, n: nat): (p: nat)
    requires base > 0
    ensures p > 0
  {
    if n == 0 then 1 else base * Power(base, n - 1)
  }

  // ----- bits -----

  lemma HalfTwice(a: int, p: nat)
    requires p > 0
    ensures a / (2 * p) == a / 2 / p
  {
    var h := a / 2;
    var q := h / p;
    assert a == 2 * h + a % 2 && h == p * q + h % p;
    assert 2 * p * q == 2 * (p * q);
    DivIs(a, 2 * p, q, 2 * (h % p) + a % 2);
  }

  /** One bit off: the rest of the result is the result of the rests. */
  lemma LastBit(op: Op, a: int, b: int)
    ensures Bits(op, a, b) / 2 == Bits(op, a / 2, b / 2)
    ensures Bits(op, a, b) % 2 == Bit(op, a % 2, b % 2)
  {
  }

  /**
   Every bit of a result, at any place, in two's complement: set in both operands, in either, or in exactly one.
   A negative number's bits are those of its division by powers of two, rounded down.
   */
  lemma {:induction false} BitsAt(op: Op, a: int, b: int, i: nat)
    requires op.And? || op.Or? || op.Xor?
    ensures var x, y := a / Power(2, i) % 2 == 1, b / Power(2, i) % 2 == 1;
      Bits(op, a, b) / Power(2, i) % 2 == 1
      <==> match op case And => x && y case Or => x || y case Xor => x != y
    decreases i
  {
    hide Bits;
    LastBit(op, a, b);
    if i > 0 {
      HalfTwice(a, Power(2, i - 1));
      HalfTwice(b, Power(2, i - 1));
      HalfTwice(Bits(op, a, b), Power(2, i - 1));
      BitsAt(op, a / 2, b / 2, i - 1);
    }
  }

  // ----- operators -----

  /** `q` is the quotient and `m` the remainder of C: the remainder is the smaller, and signed like the dividend. */
  predicate Divides(a: int, b: int, q: int, m: int) {
    a == b * q + m && Abs(m) < Abs(b) && (m > 0 ==> a > 0) && (m < 0 ==> a < 0)
  }

  /** Every operator on every pair of numbers; for the bitwise ones, at every bit. */
  lemma OperatorValues(op: Op, a: int, b: int, i: nat)
    ensures Apply(op, a, b).None? <==> (op == Div || op == Mod) && b == 0
    ensures b != 0 ==> Divides(a, b, Apply(Div, a, b).value, Apply(Mod, a, b).value)
    ensures Apply(Mul, a, b) == Some(a * b) && Apply(Plus, a, b) == Some(a + b) && Apply(Minus, a, b) == Some(a - b)
    ensures Apply(Same, a, b) == Apply(Equal, a, b) == Some(if a == b then 1 else 0)
    ensures Apply(Differs, a, b) == Some(if a == b then 0 else 1)
    ensures Apply(Less, a, b) == Some(if a < b then 1 else 0)
    ensures Apply(AtMost, a, b) == Some(if a <= b then 1 else 0)
    ensures Apply(Greater, a, b) == Some(if a > b then 1 else 0)
    ensures Apply(AtLeast, a, b) == Some(if a >= b then 1 else 0)
    ensures var x, y := a / Power(2, i) % 2 == 1, b / Power(2, i) % 2 == 1;
      && (Apply(And, a, b).value / Power(2, i) % 2 == 1 <==> x && y)
      && (Apply(Or, a, b).value / Power(2, i) % 2 == 1 <==> x || y)
      && (Apply(Xor, a, b).value / Power(2, i) % 2 == 1 <==> x != y)
  {
    hide Bits, Quotient, Remainder, Power;
    if b != 0 {
      QuotientIs(a, b);
    }
    BitsAt(And, a, b, i);
    BitsAt(Or, a, b, i);
    BitsAt(Xor, a, b, i);
  }

  /** An operator between two numbers, as it is written. */
  function Infix(a: nat, op: string, b: nat): string { Decimal(a) + op + Decimal(b) }

  predicate Worth(text: string, env: string -> int, v: Option<int>) {
    (forall i :: 0 <= i < |text| ==> text[i] != '\0')
    && Eval(text, env) == match v case Some(n) => (n, true) case None => (0, false)
  }

  lemma TreeWorth(t: Tree, text: string, env: string -> int)
    requires Print(t, 0) == text
    ensures Worth(text, env, Value(t, env))
  {
    hide Print, Value, Eval;
    EvaluatesTree(t, 0, env);
    assert Print(t, 0) + Spaces(0) == text;
  }

  lemma PrintNum(n: nat, level: nat)
    ensures Print(Num(0, n), level) == Decimal(n)
  {
    assert Spaces(0) + Decimal(n) == Decimal(n);
  }

  lemma PrintBinary(op: Op, left: Tree, right: Tree, level: nat)
    ensures var bare := Print(left, op.Level()) + op.Text() + Print(right, op.Level() + 1);
      Print(Binary(op, left, 0, right), level) == if op.Level() < level then "(" + bare + ")" else bare
  {
    hide Op.Text, Op.Level;
    var w, x := Print(left, op.Level()), Print(right, op.Level() + 1);
    assert w + Spaces(0) + op.Text() + x == w + op.Text() + x;
  }

  lemma InfixWorth(a: nat, op: Op, b: nat, env: string -> int)
    ensures Worth(Infix(a, op.Text(), b), env, Apply(op, a, b))
  {
    hide Worth, Apply, Op.Text, Op.Level, Print, Decimal;
    var l, r := Num(0, a), Num(0, b);
    PrintNum(a, op.Level());
    PrintNum(b, op.Level() + 1);
    PrintBinary(op, l, r, 0);
    TreeWorth(Binary(op, l, 0, r), Infix(a, op.Text(), b), env);
  }

  /** What each operator's characters do. */
  lemma ProductsWritten(a: nat, b: nat, env: string -> int)
    ensures Worth(Infix(a, "*", b), env, Some(a * b))
    ensures Worth(Infix(a, "/", b), env, if b == 0 then None else Some(a / b))
    ensures Worth(Infix(a, "%", b), env, if b == 0 then None else Some(a % b))
  {
    hide Worth, Infix, Quotient, Remainder;
    if b != 0 {
      NaturalDivision(a, b);
    }
    InfixWorth(a, Mul, b, env);
    InfixWorth(a, Div, b, env);
    InfixWorth(a, Mod, b, env);
  }

  lemma BitsWritten(a: nat, b: nat, env: string -> int)
    ensures Worth(Infix(a, "&", b), env, Some(Bits(And, a, b)))
    ensures Worth(Infix(a, "|", b), env, Some(Bits(Or, a, b)))
    ensures Worth(Infix(a, "^", b), env, Some(Bits(Xor, a, b)))
  {
    hide Worth, Infix, Bits;
    InfixWorth(a, And, b, env);
    InfixWorth(a, Or, b, env);
    InfixWorth(a, Xor, b, env);
  }

  lemma SumsWritten(a: nat, b: nat, env: string -> int)
    ensures Worth(Infix(a, "+", b), env, Some(a + b)) && Worth(Infix(a, "-", b), env, Some(a - b))
    ensures Worth(Infix(a, "==", b), env, Some(if a == b then 1 else 0))
    ensures Worth(Infix(a, "=", b), env, Some(if a == b then 1 else 0))
    ensures Worth(Infix(a, "!=", b), env, Some(if a == b then 0 else 1))
  {
    hide Worth, Infix;
    InfixWorth(a, Plus, b, env);
    InfixWorth(a, Minus, b, env);
    InfixWorth(a, Same, b, env);
    InfixWorth(a, Equal, b, env);
    InfixWorth(a, Differs, b, env);
  }

  lemma OrdersWritten(a: nat, b: nat, env: string -> int)
    ensures Worth(Infix(a, "<=", b), env, Some(if a <= b then 1 else 0))
    ensures Worth(Infix(a, ">=", b), env, Some(if a >= b then 1 else 0))
    ensures Worth(Infix(a, "<", b), env, Some(if a < b then 1 else 0))
    ensures Worth(Infix(a, ">", b), env, Some(if a > b then 1 else 0))
  {
    hide Worth, Infix;
    InfixWorth(a, AtMost, b, env);
    InfixWorth(a, AtLeast, b, env);
    InfixWorth(a, Less, b, env);
    InfixWorth(a, Greater, b, env);
  }

  lemma ValueNum(n: nat, env: string -> int)
    ensures Value(Num(0, n), env) == Some(n)
  {
  }

  lemma ValueBinary(op: Op, left: Tree, right: Tree, x: int, y: int, env: string -> int)
    requires Value(left, env) == Some(x) && Value(right, env) == Some(y)
    ensures Value(Binary(op, left, 0, right), env) == Apply(op, x, y)
  {
    hide Apply;
  }

  /** Two operators between three numbers. */
  lemma Chained(a: nat, o: Op, b: nat, p: Op, c: nat, env: string -> int)
    requires o != Div && o != Mod && p != Div && p != Mod
    ensures Worth(Decimal(a) + o.Text() + Decimal(b) + p.Text() + Decimal(c), env,
                  if p.Level() > o.Level() then Apply(o, a, Apply(p, b, c).value)
                  else Apply(p, Apply(o, a, b).value, c))
  {
    hide Worth, Decimal, Op.Text, Op.Level, Apply, Print, Value;
    var l, m, n := Num(0, a), Num(0, b), Num(0, c);
    ValueNum(a, env);
    ValueNum(b, env);
    ValueNum(c, env);
    PrintNum(a, o.Level());
    PrintNum(b, o.Level() + 1);
    PrintNum(b, p.Level());
    PrintNum(c, p.Level() + 1);
    if p.Level() > o.Level() {
      var r := Binary(p, m, 0, n);
      PrintBinary(p, m, n, o.Level() + 1);
      PrintBinary(o, l, r, 0);
      ValueBinary(p, m, n, b, c, env);
      ValueBinary(o, l, r, a, Apply(p, b, c).value, env);
      Regroup(Decimal(a), o.Text(), Decimal(b), p.Text(), Decimal(c));
      TreeWorth(Binary(o, l, 0, r), Decimal(a) + o.Text() + Decimal(b) + p.Text() + Decimal(c), env);
    } else {
      var r := Binary(o, l, 0, m);
      PrintBinary(o, l, m, p.Level());
      PrintBinary(p, r, n, 0);
      ValueBinary(o, l, m, a, b, env);
      ValueBinary(p, r, n, Apply(o, a, b).value, c, env);
      TreeWorth(Binary(p, r, 0, n), Decimal(a) + o.Text() + Decimal(b) + p.Text() + Decimal(c), env);
    }
  }

  lemma Regroup(a: string, b: string, c: string, d: string, e: string)
    ensures a + b + (c + d + e) == a + b + c + d + e
  {
  }

  /** Products and the bitwise operators bind tighter than sums, those tighter than comparisons; else from the left. */
  lemma Precedence(a: nat, b: nat, c: nat, env: string -> int)
    ensures var x, y, z := Decimal(a), Decimal(b), Decimal(c);
      && Worth(x + "+" + y + "*" + z, env, Some(a + b * c))
      && Worth(x + "*" + y + "+" + z, env, Some(a * b + c))
      && Worth(x + "+" + y + "&" + z, env, Some(a + Bits(And, b, c)))
      && Worth(x + "|" + y + "*" + z, env, Some(Bits(Or, a, b) * c))
  {
    hide Worth, Decimal, Bits;
    Chained(a, Plus, b, Mul, c, env);
    Chained(a, Mul, b, Plus, c, env);
    Chained(a, Plus, b, And, c, env);
    Chained(a, Or, b, Mul, c, env);
  }

  lemma FromTheLeft(a: nat, b: nat, c: nat, env: string -> int)
    ensures var x, y, z := Decimal(a), Decimal(b), Decimal(c);
      && Worth(x + "-" + y + "-" + z, env, Some(a - b - c))
      && Worth(x + "<" + y + "+" + z, env, Some(if a < b + c then 1 else 0))
      && Worth(x + "<" + y + "<" + z, env, Some(if (if a < b then 1 else 0) < c then 1 else 0))
  {
    hide Worth, Decimal;
    Chained(a, Minus, b, Minus, c, env);
    Chained(a, Less, b, Plus, c, env);
    Chained(a, Less, b, Less, c, env);
  }

  lemma RegroupParentheses(x: string, y: string, z: string)
    ensures "(" + (x + "+" + y) + ")" + "*" + z == "(" + x + "+" + y + ")" + "*" + z
  {
  }

  /** Parentheses go first. */
  lemma GroupsFirst(a: nat, b: nat, c: nat, env: string -> int)
    ensures Worth("(" + Decimal(a) + "+" + Decimal(b) + ")" + "*" + Decimal(c), env, Some((a + b) * c))
  {
    hide Worth, Decimal, Print, Value;
    var l, m, n := Num(0, a), Num(0, b), Num(0, c);
    var x, y, z := Decimal(a), Decimal(b), Decimal(c);
    ValueNum(a, env);
    ValueNum(b, env);
    ValueNum(c, env);
    ValueBinary(Plus, l, m, a, b, env);
    ValueBinary(Mul, Binary(Plus, l, 0, m), n, a + b, c, env);
    PrintNum(a, 1);
    PrintNum(b, 2);
    PrintNum(c, 3);
    PrintBinary(Plus, l, m, 2);
    PrintBinary(Mul, Binary(Plus, l, 0, m), n, 0);
    RegroupParentheses(x, y, z);
    TreeWorth(Binary(Mul, Binary(Plus, l, 0, m), 0, n), "(" + x + "+" + y + ")" + "*" + z, env);
  }

  /** A sign belongs to the number behind it, so that a remainder has the sign of its dividend. */
  lemma SignsFirst(a: nat, b: nat, env: string -> int)
    ensures Worth("-" + Decimal(a), env, Some(0 - a)) && Worth("+" + Decimal(a), env, Some(a))
    ensures Worth("-" + Decimal(a) + "%" + Decimal(b), env, if b == 0 then None else Some(0 - a % b))
  {
    hide Worth, Decimal, Print, Value, Remainder;
    var l, m := Num(0, a), Num(0, b);
    ValueNum(b, env);
    ValueSigned(a, env);
    PrintNum(a, 3);
    PrintNum(b, 3);
    PrintSigned(true, l, 0);
    PrintSigned(false, l, 0);
    PrintSigned(true, l, 2);
    TreeWorth(Signed(0, true, l), "-" + Decimal(a), env);
    TreeWorth(Signed(0, false, l), "+" + Decimal(a), env);
    PrintBinary(Mod, Signed(0, true, l), m, 0);
    ValueBinary(Mod, Signed(0, true, l), m, 0 - a, b, env);
    TreeWorth(Binary(Mod, Signed(0, true, l), 0, m), "-" + Decimal(a) + "%" + Decimal(b), env);
    if b != 0 {
      NegatedRemainder(a, b);
    }
  }

  lemma ValueSigned(n: nat, env: string -> int)
    ensures Value(Signed(0, true, Num(0, n)), env) == Some(0 - n)
    ensures Value(Signed(0, false, Num(0, n)), env) == Some(n)
  {
  }

  lemma PrintSigned(minus: bool, operand: Tree, level: nat)
    ensures Print(Signed(0, minus, operand), level) == (if minus then "-" else "+") + Print(operand, 3)
  {
    assert Spaces(0) + (if minus then "-" else "+") == if minus then "-" else "+";
  }

  lemma NegatedRemainder(a: nat, b: nat)
    requires b > 0
    ensures Remainder(0 - a, b) == 0 - a % b
  {
    assert a == b * (a / b) + a % b;
    assert b * -(a / b) == -(b * (a / b));
  }

  // ----- numerals -----

  /** The value of digits, each weighed by its place. */
  function Weighed(ds: seq<nat>, base: nat): nat
    requires base > 0
  {
    if ds == [] then 0 else ds[0] * Power(base, |ds| - 1) + Weighed(ds[1..], base)
  }

  const LOWER := "0123456789abcdef"
  const UPPER := "0123456789ABCDEF"

  function Figures(ds: seq<nat>, letters: string): (s: string)
    requires forall k :: 0 <= k < |ds| ==> ds[k] < |letters|
    ensures |s| == |ds| && forall k :: 0 <= k < |s| ==> s[k] == letters[ds[k]]
  {
    seq(|ds|, k requires 0 <= k < |ds| => letters[ds[k]])
  }

  lemma FigureValue(letters: string, d: nat)
    requires (letters == LOWER || letters == UPPER) && d < 16
    ensures DigitValue(letters[d]) == d && letters[d] != '\0' && letters[d] !in "xXoO"
    ensures d < 10 ==> Digit(letters[d])
    ensures d < 10 ==> letters[d] !in "bB"
  {
  }

  lemma FiguresDrop(ds: seq<nat>, letters: string)
    requires ds != [] && forall k :: 0 <= k < |ds| ==> ds[k] < |letters|
    ensures Figures(ds, letters)[0] == letters[ds[0]] && Figures(ds, letters)[1..] == Figures(ds[1..], letters)
  {
  }

  lemma FirstWeighs(acc: nat, ds: seq<nat>, base: nat)
    requires base > 0 && ds != []
    ensures var rest := ds[1..];
      acc * Power(base, |ds|) + Weighed(ds, base) == (acc * base + ds[0]) * Power(base, |rest|) + Weighed(rest, base)
  {
    var p := Power(base, |ds| - 1);
    assert (acc * base + ds[0]) * p == acc * (base * p) + ds[0] * p;
  }

  lemma DigitsNext(s: Text, i: nat, base: nat, acc: nat, d: nat)
    requires i < |s| && DigitValue(s[i]) == d < base
    ensures Digits(s, i, base, acc) == Digits(s, i + 1, base, acc * base + d)
  {
  }

  lemma {:induction false} DigitsWeigh(s: Text, i: nat, base: nat, acc: nat, ds: seq<nat>, letters: string)
    requires (letters == LOWER || letters == UPPER) && 0 < base <= 16
    requires forall k :: 0 <= k < |ds| ==> ds[k] < base
    requires i + |ds| == |s| && s[i..] == Figures(ds, letters)
    ensures Digits(s, i, base, acc) == (acc * Power(base, |ds|) + Weighed(ds, base), |s|)
    decreases |ds|
  {
    hide DigitValue, Digits, Power, Weighed, Figures;
    if ds == [] {
      NoDigits(s, base, acc);
    } else {
      var d, rest := ds[0], ds[1..];
      FigureValue(letters, d);
      FiguresDrop(ds, letters);
      assert s[i] == s[i..][0] && s[i + 1..] == s[i..][1..];
      DigitsNext(s, i, base, acc, d);
      FirstWeighs(acc, ds, base);
      DigitsWeigh(s, i + 1, base, acc * base + d, rest, letters);
    }
  }

  lemma NoDigits(s: Text, base: nat, acc: nat)
    requires base > 0
    ensures Digits(s, |s|, base, acc) == (acc * Power(base, 0) + Weighed([], base), |s|)
  {
  }

  /** A numeral that is the whole text. */
  lemma NumeralAlone(s: Text, v: nat, env: string -> int)
    requires s != "" && Digit(s[0]) && Numeral(s, 0) == (v, |s|)
    ensures Eval(s, env) == (v, true)
  {
    hide Numeral, Digits;
    assert Skip(s, 0) == 0 && Skip(s, |s|) == |s| && At(s, |s|) == '\0';
    assert Primary(s, 0, false, env) == Outcome(v, |s|, false);
    assert Unary(s, 0, false, env) == Outcome(v, |s|, false);
    assert Product(s, 0, false, env) == Outcome(v, |s|, false);
    assert Sum(s, 0, false, env) == Outcome(v, |s|, false);
    assert Cmp(s, 0, false, env) == Outcome(v, |s|, false);
  }

  predicate Prefix(prefix: string, base: nat) {
    (prefix == "" && base == 10) || (prefix in ["0x", "0X"] && base == 16)
    || (prefix in ["0o", "0O"] && base == 8) || (prefix in ["0b", "0B"] && base == 2)
  }

  lemma FigureCharacters(ds: seq<nat>, letters: string)
    requires letters == LOWER || letters == UPPER
    requires forall k :: 0 <= k < |ds| ==> ds[k] < 16
    ensures forall k :: 0 <= k < |ds| ==> Figures(ds, letters)[k] != '\0'
  {
    hide Digit, DigitValue;
    forall k | 0 <= k < |ds| ensures Figures(ds, letters)[k] != '\0' {
      FigureValue(letters, ds[k]);
    }
  }

  /** A numeral without a prefix. */
  lemma DecimalRead(s: Text, ds: seq<nat>, letters: string)
    requires (letters == LOWER || letters == UPPER) && ds != [] && forall k :: 0 <= k < |ds| ==> ds[k] < 10
    requires s == Figures(ds, letters)
    ensures Digit(s[0]) && Numeral(s, 0) == (Weighed(ds, 10), |s|)
  {
    hide Digits, Weighed, Power, DigitValue, Base, Digit, Figures;
    DecimalBase(s, ds, letters);
    FigureValue(letters, ds[0]);
    FiguresDrop(ds, letters);
    DigitsWeigh(s, 1, 10, ds[0], ds[1..], letters);
    FirstWeighs(0, ds, 10);
    assert 0 * Power(10, |ds|) == 0 && 0 * 10 == 0;
  }

  lemma DecimalBase(s: Text, ds: seq<nat>, letters: string)
    requires (letters == LOWER || letters == UPPER) && ds != [] && forall k :: 0 <= k < |ds| ==> ds[k] < 10
    requires s == Figures(ds, letters)
    ensures Base(s, 0) == 10
  {
    hide DigitValue, Digit;
    if |ds| > 1 {
      FigureValue(letters, ds[1]);
      assert s[1] == letters[ds[1]];
    }
  }

  /** A numeral behind its prefix. */
  lemma PrefixedRead(s: Text, prefix: string, base: nat, ds: seq<nat>, letters: string)
    requires (letters == LOWER || letters == UPPER) && Prefix(prefix, base) && base != 10
    requires forall k :: 0 <= k < |ds| ==> ds[k] < base
    requires s == prefix + Figures(ds, letters)
    ensures Digit(s[0]) && Numeral(s, 0) == (Weighed(ds, base), |s|)
  {
    hide Digits, Weighed, Power, DigitValue;
    assert s[0] == prefix[0] == '0' && s[1] == prefix[1];
    assert Base(s, 0) == base;
    assert s[2..] == Figures(ds, letters);
    DigitsWeigh(s, 2, base, 0, ds, letters);
    assert 0 * Power(base, |ds|) == 0;
  }

  /** Decimal, hexadecimal, octal and binary numerals, of any length and in either case. */
  lemma NumeralsWritten(prefix: string, base: nat, ds: seq<nat>, letters: string, env: string -> int)
    requires (letters == LOWER || letters == UPPER) && Prefix(prefix, base) && (prefix == "" ==> ds != [])
    requires forall k :: 0 <= k < |ds| ==> ds[k] < base
    ensures Worth(prefix + Figures(ds, letters), env, Some(Weighed(ds, base)))
  {
    hide Eval, DigitValue, Digits, Weighed, Numeral, Digit, Figures;
    var text := prefix + Figures(ds, letters);
    FigureCharacters(ds, letters);
    var s: Text := text;
    if prefix == "" {
      assert s == Figures(ds, letters);
      DecimalRead(s, ds, letters);
    } else {
      PrefixedRead(s, prefix, base, ds, letters);
    }
    NumeralAlone(s, Weighed(ds, base), env);
  }

  // ----- texts that are no expressions -----

  /** A number at `i` that no operator follows. */
  lemma NumberAlone(s: Text, i: nat, n: nat, error: bool, env: string -> int)
    requires Here(s, i, Decimal(n)) && !Word(At(s, i + |Decimal(n)|))
    requires var p := Skip(s, i + |Decimal(n)|); MulOp(s, p).None? && AddOp(s, p).None? && CmpOp(s, p).None?
    ensures i < |s| && i + |Decimal(n)| <= |s| && Cmp(s, i, error, env) == Outcome(n, Skip(s, i + |Decimal(n)|), error)
  {
    hide Numeral, Decimal, Here, MulOp, AddOp, CmpOp, Word;
    var e := i + |Decimal(n)|;
    var p := Skip(s, e);
    NumeralHere(s, i, n);
    SkipAgain(s, e);
    assert Primary(s, i, error, env) == Outcome(n, e, error);
    assert Unary(s, i, error, env) == Outcome(n, e, error);
    assert Product(s, i, error, env) == Outcome(n, p, error);
    assert Sum(s, i, error, env) == Outcome(n, p, error);
  }

  lemma NumeralHere(s: Text, i: nat, n: nat)
    requires Here(s, i, Decimal(n)) && !Word(At(s, i + |Decimal(n)|))
    ensures i < |s| && i + |Decimal(n)| <= |s| && Skip(s, i) == i && Digit(s[i])
    ensures Numeral(s, i) == (n, i + |Decimal(n)|)
  {
    hide Numeral;
    NumeralRead(s, i, n);
  }

  lemma {:induction false} SkipAgain(s: Text, i: nat)
    requires i <= |s|
    ensures Skip(s, Skip(s, i)) == Skip(s, i)
    decreases |s| - i
  {
    if Blank(At(s, i)) {
      SkipAgain(s, i + 1);
    }
  }

  /** A text of which the evaluation stops before its end. */
  lemma LeftOver(s: Text, v: int, pos: nat, env: string -> int)
    requires pos <= |s| && Cmp(s, 0, false, env) == Outcome(v, pos, false) && Skip(s, pos) != |s|
    ensures Eval(s, env) == (0, false)
  {
    hide Cmp;
  }

  lemma NumberBefore(n: nat, rest: string) returns (s: Text)
    requires rest != "" && !Word(rest[0]) && forall k :: 0 <= k < |rest| ==> rest[k] != '\0'
    ensures s == Decimal(n) + rest && Here(s, 0, Decimal(n)) && At(s, |Decimal(n)|) == rest[0]
    ensures |rest| > 1 ==> At(s, |Decimal(n)| + 1) == rest[1]
  {
    var d := Decimal(n);
    forall k | 0 <= k < |d + rest| ensures (d + rest)[k] != '\0' {
      if k < |d| { assert Digit(d[k]); }
    }
    s := d + rest;
    assert s[..|d|] == d && s[|d|] == rest[0];
    if |rest| > 1 { assert s[|d| + 1] == rest[1]; }
  }

  /** Something behind an expression that goes on in no way: a bracket, a doubled operator, half of one. */
  lemma RefusesRest(a: nat, b: nat, rest: string, env: string -> int)
    requires rest == ")" || rest == "&&" + Decimal(b) || rest == "||" + Decimal(b) || rest == "!" + Decimal(b)
    ensures Worth(Decimal(a) + rest, env, None)
  {
    hide Worth, Decimal;
    DigitsOnly(b);
    NoEquals(b);
    RefusedRest(a, rest, env);
  }

  lemma DigitsOnly(b: nat)
    ensures forall k :: 0 <= k < |Decimal(b)| ==> Decimal(b)[k] != '\0'
  {
    forall k | 0 <= k < |Decimal(b)| ensures Decimal(b)[k] != '\0' {
      assert Digit(Decimal(b)[k]);
    }
  }

  lemma NoEquals(b: nat)
    ensures Decimal(b)[0] != '='
  {
    assert Digit(Decimal(b)[0]);
  }

  lemma RefusedRest(a: nat, rest: string, env: string -> int)
    requires rest != "" && forall k :: 0 <= k < |rest| ==> rest[k] != '\0'
    requires rest[0] == ')'
      || (|rest| > 1 && (rest[..2] == "&&" || rest[..2] == "||" || (rest[0] == '!' && rest[1] != '=')))
    ensures Worth(Decimal(a) + rest, env, None)
  {
    hide Decimal, Here, Eval, Cmp;
    if |rest| > 1 { assert rest[..2] == [rest[0], rest[1]]; }
    var s := NumberBefore(a, rest);
    var e := |Decimal(a)|;
    NumberAlone(s, 0, a, false, env);
    LeftOver(s, a, e, env);
  }

  /** Nothing, or an operator without its right side. */
  lemma RefusesMissing(a: nat, env: string -> int)
    ensures Worth("", env, None) && Worth(Decimal(a) + "+", env, None) && Worth("-", env, None)
  {
    RefusesNothing(env);
    hide Decimal, Here, Eval;
    var s := NumberBefore(a, "+");
    var e := |Decimal(a)|;
    assert |s| == e + 1;
    NumeralHere(s, 0, a);
    DanglingSum(s, a, e, env);
  }

  lemma RefusesNothing(env: string -> int)
    ensures Eval("", env) == (0, false) && Eval("-", env) == (0, false)
  {
    var s: Text := "";
    assert Primary(s, 0, false, env).error;
    assert Unary(s, 0, false, env).error && Product(s, 0, false, env).error && Sum(s, 0, false, env).error;
    var m: Text := "-";
    assert Primary(m, 1, false, env).error && Unary(m, 1, false, env).error;
    assert Unary(m, 0, false, env).error && Product(m, 0, false, env).error && Sum(m, 0, false, env).error;
  }

  lemma DanglingSum(s: Text, a: nat, e: nat, env: string -> int)
    requires 0 < e < |s| && |s| == e + 1 && s[e] == '+' && Skip(s, 0) == 0 && Digit(s[0]) && Numeral(s, 0) == (a, e)
    ensures Eval(s, env) == (0, false)
  {
    hide Numeral;
    assert Skip(s, e) == e && Skip(s, e + 1) == e + 1 && MulOp(s, e) == None && AddOp(s, e) == Some(Plus);
    assert Primary(s, 0, false, env) == Outcome(a, e, false);
    assert Unary(s, 0, false, env) == Outcome(a, e, false);
    assert Product(s, 0, false, env) == Outcome(a, e, false);
    assert Primary(s, e + 1, false, env).error;
    assert Unary(s, e + 1, false, env).error && Product(s, e + 1, false, env).error;
    assert AddLoop(s, a, e, false, env).error;
    assert Sum(s, 0, false, env).error;
  }

  /** An opening bracket that is not closed. */
  lemma RefusesOpen(a: nat, env: string -> int)
    ensures Worth("(" + Decimal(a), env, None)
  {
    hide Decimal, Eval;
    DigitsOnly(a);
    var t := "(" + Decimal(a);
    forall k | 0 <= k < |t| ensures t[k] != '\0' {
      if k > 0 { assert t[k] == Decimal(a)[k - 1]; }
    }
    var s: Text := t;
    assert s[1..1 + |Decimal(a)|] == Decimal(a);
    assert Skip(s, |s|) == |s|;
    NumberAlone(s, 1, a, false, env);
    OpenBracket(s, a, env);
  }

  lemma OpenBracket(s: Text, a: nat, env: string -> int)
    requires s != "" && s[0] == '(' && Cmp(s, 1, false, env) == Outcome(a, |s|, false) && Skip(s, |s|) == |s|
    ensures Eval(s, env) == (0, false)
  {
    assert Primary(s, 0, false, env).error;
    assert Unary(s, 0, false, env).error && Product(s, 0, false, env).error && Sum(s, 0, false, env).error;
  }
}
