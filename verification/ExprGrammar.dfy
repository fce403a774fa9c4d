/** The integer expression language: its trees, their values, and how they are written. */
module ExprGrammar {
  import opened Basics
  import opened CInts

  // ----- characters -----

  predicate Blank(c: char) { c == ' ' || '\t' <= c <= '\r' }

  predicate Digit(c: char) { '0' <= c <= '9' }

  predicate Letter(c: char) { 'a' <= c <= 'z' || 'A' <= c <= 'Z' || c == '_' }

  predicate Word(c: char) { Letter(c) || Digit(c) }

  // ----- operators -----

  datatype Op =
    | Mul | Div | Mod | And | Or | Xor
    | Plus | Minus
    | Same | Equal | Differs | AtMost | AtLeast | Less | Greater
  {
    /** 0 for comparisons, 1 for sums, 2 for products and the bitwise operators. */
    function Level(): (l: nat)
      ensures l <= 2
    {
      match this
      case Mul | Div | Mod | And | Or | Xor => 2
      case Plus | Minus => 1
      case _ => 0
    }

    function Text(): (s: string)
      ensures 1 <= |s| <= 2
    {
      match this
      case Mul => "*"
      case Div => "/"
      case Mod => "%"
      case And => "&"
      case Or => "|"
      case Xor => "^"
      case Plus => "+"
      case Minus => "-"
      case Same => "=="
      case Equal => "="
      case Differs => "!="
      case AtMost => "<="
      case AtLeast => ">="
      case Less => "<"
      case Greater => ">"
    }
  }

  /** The bitwise operations on two's complement numbers of any width. */
  function Bits(op: Op, a: int, b: int): int
    decreases (if a >= 0 then a else -a - 1) + (if b >= 0 then b else -b - 1)
  {
    if -1 <= a <= 0 && -1 <= b <= 0 then
      match op
      case And => if a == -1 && b == -1 then -1 else 0
      case Or => if a == -1 || b == -1 then -1 else 0
      case _ => if a == b then 0 else -1
    else
      2 * Bits(op, a / 2, b / 2) + Bit(op, a % 2, b % 2)
  }

  function Bit(op: Op, x: int, y: int): int {
    match op
    case And => if x == 1 && y == 1 then 1 else 0
    case Or => if x == 1 || y == 1 then 1 else 0
    case _ => if x == y then 0 else 1
  }

  function Truth(p: bool): int { if p then 1 else 0 }

  /** The value of an operation; only a zero divisor leaves it without one. */
  function Apply(op: Op, a: int, b: int): (r: Option<int>)
    ensures r.None? <==> (op.Div? || op.Mod?) && b == 0
  {
    match op
    case Mul => Some(a * b)
    case Div => if b == 0 then None else Some(Quotient(a, b))
    case Mod => if b == 0 then None else Some(Remainder(a, b))
    case And | Or | Xor => Some(Bits(op, a, b))
    case Plus => Some(a + b)
    case Minus => Some(a - b)
    case Same | Equal => Some(Truth(a == b))
    case Differs => Some(Truth(a != b))
    case AtMost => Some(Truth(a <= b))
    case AtLeast => Some(Truth(a >= b))
    case Less => Some(Truth(a < b))
    case Greater => Some(Truth(a > b))
  }

  // ----- trees -----

  /** A name that can be looked up. */
  type Ident = s: string | s != "" && Letter(s[0]) && forall i :: 0 <= i < |s| ==> Word(s[i])
    witness "A"

  /** An expression together with the blanks that stand before each of its tokens. */
  datatype Tree =
    | Num(blanks: nat, value: nat)
    | Name(blanks: nat, id: Ident)
    | Group(blanks: nat, inner: Tree, closing: nat)
    | Signed(blanks: nat, minus: bool, operand: Tree)
    | Binary(op: Op, left: Tree, blanks: nat, right: Tree)

  /** What the expression is worth; None when some divisor is zero. */
  function Value(t: Tree, env: string -> int): Option<int> {
    match t
    case Num(_, n) => Some(n)
    case Name(_, id) => Some(env(id))
    case Group(_, inner, _) => Value(inner, env)
    case Signed(_, minus, operand) =>
      (match Value(operand, env)
       case None => None
       case Some(v) => Some(if minus then -v else v))
    case Binary(op, left, _, right) =>
      match Value(left, env)
      case None => None
      case Some(a) =>
        match Value(right, env)
        case None => None
        case Some(b) => Apply(op, a, b)
  }

  // ----- writing -----

  function Spaces(n: nat): (s: string)
    ensures |s| == n && forall i :: 0 <= i < n ==> s[i] == ' '
  {
    seq(n, _ => ' ')
  }

  function Decimal(n: nat): (s: string)
    ensures s != "" && forall i :: 0 <= i < |s| ==> Digit(s[i])
    ensures s[0] == '0' ==> n == 0 && s == "0"
  {
    if n < 10 then [('0' as int + n) as char]
    else Decimal(n / 10) + [('0' as int + n % 10) as char]
  }

  /** Writes a tree where an operand of level `level` is expected, with parentheses only where needed. */
  function Print(t: Tree, level: nat): string
    decreases t, level + 1
  {
    match t
    case Binary(op, _, _, _) => if op.Level() < level then "(" + PrintBare(t) + ")" else PrintBare(t)
    case _ => PrintBare(t)
  }

  function PrintBare(t: Tree): string
    decreases t, 0
  {
    match t
    case Num(blanks, n) => Spaces(blanks) + Decimal(n)
    case Name(blanks, id) => Spaces(blanks) + id
    case Group(blanks, inner, closing) => Spaces(blanks) + "(" + Print(inner, 0) + Spaces(closing) + ")"
    case Signed(blanks, minus, operand) =>
      Spaces(blanks) + (if minus then "-" else "+") + Print(operand, 3)
    case Binary(op, left, blanks, right) =>
      Print(left, op.Level()) + Spaces(blanks) + op.Text() + Print(right, op.Level() + 1)
  }
}
