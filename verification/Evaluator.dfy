/** The recursive-descent evaluator: what it computes, and the code that computes it. */
module Evaluator {
  import opened Basics
  import opened ExprGrammar

  /** A string as C sees it: a zero character ends it, and none lies before its end. */
  type Text = s: string | forall i :: 0 <= i < |s| ==> s[i] != '\0' witness ""

  /** The character under the cursor; past the last one there is the terminator. */
  function At(s: Text, i: nat): char {
    if i < |s| then s[i] else '\0'
  }

  function Skip(s: Text, i: nat): (j: nat)
    requires i <= |s|
    ensures i <= j <= |s| && !Blank(At(s, j))
    decreases |s| - i
  {
    if Blank(At(s, i)) then Skip(s, i + 1) else i
  }

  // ----- numerals and names -----

  function DigitValue(c: char): nat {
    if Digit(c) then c as int - '0' as int
    else if 'a' <= c <= 'f' then c as int - 'a' as int + 10
    else if 'A' <= c <= 'F' then c as int - 'A' as int + 10
    else 16
  }

  function Shifted(acc: nat, base: nat, digit: nat): nat { acc * base + digit }

  /** The value and the end of a run of digits. */
  function Digits(s: Text, i: nat, base: nat, acc: nat): (r: (nat, nat))
    requires i <= |s|
    ensures i <= r.1 <= |s|
    decreases |s| - i
  {
    if i < |s| && DigitValue(s[i]) < base then Digits(s, i + 1, base, Shifted(acc, base, DigitValue(s[i])))
    else (acc, i)
  }

  /** The base that a numeral's prefix announces. */
  function Base(s: Text, i: nat): nat {
    if At(s, i) != '0' then 10
    else if At(s, i + 1) in "xX" then 16
    else if At(s, i + 1) in "bB" then 2
    else if At(s, i + 1) in "oO" then 8
    else 10
  }

  function Numeral(s: Text, i: nat): (r: (nat, nat))
    requires i < |s| && Digit(s[i])
    ensures i < r.1 <= |s|
  {
    var base := Base(s, i);
    if base != 10 then Digits(s, i + 2, base, 0) else Digits(s, i + 1, 10, DigitValue(s[i]))
  }

  function WordEnd(s: Text, i: nat): (j: nat)
    requires i <= |s|
    ensures i <= j <= |s|
    decreases |s| - i
  {
    if Word(At(s, i)) then WordEnd(s, i + 1) else i
  }

  // ----- operators under the cursor -----

  function MulOp(s: Text, i: nat): (r: Option<Op>)
    ensures r.Some? ==> i < |s| && r.value.Level() == 2
  {
    var c := At(s, i);
    if c == '*' then Some(Mul)
    else if c == '/' then Some(Div)
    else if c == '%' then Some(Mod)
    else if c == '&' && At(s, i + 1) != '&' then Some(And)
    else if c == '|' && At(s, i + 1) != '|' then Some(Or)
    else if c == '^' then Some(Xor)
    else None
  }

  function AddOp(s: Text, i: nat): (r: Option<Op>)
    ensures r.Some? ==> i < |s| && r.value.Level() == 1
  {
    if At(s, i) == '+' then Some(Plus) else if At(s, i) == '-' then Some(Minus) else None
  }

  function CmpOp(s: Text, i: nat): (r: Option<Op>)
    ensures r.Some? ==> i + |r.value.Text()| <= |s| && r.value.Level() == 0
  {
    var c, d := At(s, i), At(s, i + 1);
    if c == '=' && d == '=' then Some(Same)
    else if c == '!' && d == '=' then Some(Differs)
    else if c == '<' && d == '=' then Some(AtMost)
    else if c == '>' && d == '=' then Some(AtLeast)
    else if c == '<' then Some(Less)
    else if c == '>' then Some(Greater)
    else if c == '=' then Some(Equal)
    else None
  }

  // ----- the five levels -----

  /** A value, the cursor behind it, and the sticky error flag. */
  datatype Outcome = Outcome(value: int, pos: nat, error: bool)

  predicate Onward(s: Text, i: nat, error: bool, r: Outcome) {
    i <= r.pos <= |s| && (error ==> r.error)
  }

  function Primary(s: Text, i: nat, error: bool, env: string -> int): (r: Outcome)
    requires i <= |s|
    ensures Onward(s, i, error, r)
    decreases |s| - i, 1
  {
    var p := Skip(s, i);
    if p == |s| then Outcome(0, p, true)
    else if s[p] == '(' then
      var r := Cmp(s, p + 1, error, env);
      var q := Skip(s, r.pos);
      if At(s, q) == ')' then Outcome(r.value, q + 1, r.error) else Outcome(r.value, q, true)
    else if Digit(s[p]) then Outcome(Numeral(s, p).0, Numeral(s, p).1, error)
    else if Letter(s[p]) then Outcome(env(s[p..WordEnd(s, p)]), WordEnd(s, p), error)
    else Outcome(0, p, true)
  }

  function Unary(s: Text, i: nat, error: bool, env: string -> int): (r: Outcome)
    requires i <= |s|
    ensures Onward(s, i, error, r)
    decreases |s| - i, 2
  {
    var p := Skip(s, i);
    if At(s, p) == '+' then Unary(s, p + 1, error, env)
    else if At(s, p) == '-' then
      var r := Unary(s, p + 1, error, env);
      r.(value := -r.value)
    else Primary(s, p, error, env)
  }

  function MulLoop(s: Text, v: int, i: nat, error: bool, env: string -> int): (r: Outcome)
    requires i <= |s|
    ensures Onward(s, i, error, r)
    decreases |s| - i, 0
  {
    var p := Skip(s, i);
    match MulOp(s, p)
    case None => Outcome(v, p, error)
    case Some(op) =>
      var r := Unary(s, p + 1, error, env);
      if (op.Div? || op.Mod?) && r.value == 0 then Outcome(0, r.pos, true)
      else MulLoop(s, Apply(op, v, r.value).value, r.pos, r.error, env)
  }

  function Product(s: Text, i: nat, error: bool, env: string -> int): (r: Outcome)
    requires i <= |s|
    ensures Onward(s, i, error, r)
    decreases |s| - i, 3
  {
    var r := Unary(s, i, error, env);
    MulLoop(s, r.value, r.pos, r.error, env)
  }

  function AddLoop(s: Text, v: int, i: nat, error: bool, env: string -> int): (r: Outcome)
    requires i <= |s|
    ensures Onward(s, i, error, r)
    decreases |s| - i, 0
  {
    var p := Skip(s, i);
    match AddOp(s, p)
    case None => Outcome(v, p, error)
    case Some(op) =>
      var r := Product(s, p + 1, error, env);
      AddLoop(s, Apply(op, v, r.value).value, r.pos, r.error, env)
  }

  function Sum(s: Text, i: nat, error: bool, env: string -> int): (r: Outcome)
    requires i <= |s|
    ensures Onward(s, i, error, r)
    decreases |s| - i, 4
  {
    var r := Product(s, i, error, env);
    AddLoop(s, r.value, r.pos, r.error, env)
  }

  function CmpLoop(s: Text, v: int, i: nat, error: bool, env: string -> int): (r: Outcome)
    requires i <= |s|
    ensures Onward(s, i, error, r)
    decreases |s| - i, 0
  {
    var p := Skip(s, i);
    match CmpOp(s, p)
    case None => Outcome(v, p, error)
    case Some(op) =>
      var r := Sum(s, p + |op.Text()|, error, env);
      CmpLoop(s, Apply(op, v, r.value).value, r.pos, r.error, env)
  }

  function Cmp(s: Text, i: nat, error: bool, env: string -> int): (r: Outcome)
    requires i <= |s|
    ensures Onward(s, i, error, r)
    decreases |s| - i, 5
  {
    var r := Sum(s, i, error, env);
    CmpLoop(s, r.value, r.pos, r.error, env)
  }

  /** The evaluation of a whole text: a value, or 0 and an error. */
  function Eval(s: Text, env: string -> int): (int, bool) {
    var r := Cmp(s, 0, false, env);
    if r.error || Skip(s, r.pos) != |s| then (0, false) else (r.value, true)
  }

  // ----- the code -----

  class Parser {
    const s: Text
    const env: string -> int
    var pos: nat
    var error: bool

    constructor (text: Text, lookup: string -> int)
      ensures s == text && env == lookup && pos == 0 && !error
    {
      s, env, pos, error := text, lookup, 0, false;
    }

    method SkipBlanks()
      requires pos <= |s|
      modifies this`pos
      ensures pos == Skip(s, old(pos))
    {
      while Blank(At(s, pos))
        invariant pos <= |s| && Skip(s, pos) == Skip(s, old(pos))
        decreases |s| - pos
      {
        pos := pos + 1;
      }
    }

    /** The digits from the cursor on, as strtol reads them. */
    method ReadDigits(base: nat, first: nat) returns (v: nat)
      requires pos <= |s|
      modifies this`pos
      ensures (v, pos) == Digits(s, old(pos), base, first)
    {
      hide Shifted, DigitValue;
      v := first;
      while pos < |s| && DigitValue(s[pos]) < base
        invariant pos <= |s| && Digits(s, pos, base, v) == Digits(s, old(pos), base, first)
        decreases |s| - pos
      {
        v := Shifted(v, base, DigitValue(s[pos]));
        pos := pos + 1;
      }
    }

    method ParsePrimary() returns (v: int)
      requires pos <= |s|
      modifies this
      ensures Outcome(v, pos, error) == Primary(s, old(pos), old(error), env)
      decreases |s| - pos, 1
    {
      SkipBlanks();
      if pos == |s| {
        error := true;
        return 0;
      }
      if s[pos] == '(' {
        pos := pos + 1;
        v := ParseCmp();
        SkipBlanks();
        if At(s, pos) == ')' {
          pos := pos + 1;
        } else {
          error := true;
        }
        return;
      }
      if Digit(s[pos]) {
        var base := Base(s, pos);
        if base != 10 {
          pos := pos + 2;
          v := ReadDigits(base, 0);
        } else {
          var d := DigitValue(s[pos]);
          pos := pos + 1;
          v := ReadDigits(10, d);
        }
        return;
      }
      if Letter(s[pos]) {
        var start := pos;
        while Word(At(s, pos))
          invariant start <= pos <= |s| && WordEnd(s, pos) == WordEnd(s, start) && error == old(error)
          decreases |s| - pos
        {
          pos := pos + 1;
        }
        return env(s[start..pos]);
      }
      error := true;
      v := 0;
    }

    method ParseUnary() returns (v: int)
      requires pos <= |s|
      modifies this
      ensures Outcome(v, pos, error) == Unary(s, old(pos), old(error), env)
      decreases |s| - pos, 2
    {
      SkipBlanks();
      if At(s, pos) == '+' {
        pos := pos + 1;
        v := ParseUnary();
      } else if At(s, pos) == '-' {
        pos := pos + 1;
        v := ParseUnary();
        v := -v;
      } else {
        v := ParsePrimary();
      }
    }

    method ParseMul() returns (v: int)
      requires pos <= |s|
      modifies this
      ensures Outcome(v, pos, error) == Product(s, old(pos), old(error), env)
      decreases |s| - pos, 3
    {
      hide Apply;
      v := ParseUnary();
      while true
        invariant old(pos) <= pos <= |s|
        invariant MulLoop(s, v, pos, error, env) == Product(s, old(pos), old(error), env)
        decreases |s| - pos
      {
        SkipBlanks();
        var op := MulOp(s, pos);
        if op.None? {
          break;
        }
        pos := pos + 1;
        var rhs := ParseUnary();
        if (op.value.Div? || op.value.Mod?) && rhs == 0 {
          error := true;
          return 0;
        }
        v := Apply(op.value, v, rhs).value;
      }
    }

    method ParseAdd() returns (v: int)
      requires pos <= |s|
      modifies this
      ensures Outcome(v, pos, error) == Sum(s, old(pos), old(error), env)
      decreases |s| - pos, 4
    {
      hide Apply;
      v := ParseMul();
      while true
        invariant old(pos) <= pos <= |s|
        invariant AddLoop(s, v, pos, error, env) == Sum(s, old(pos), old(error), env)
        decreases |s| - pos
      {
        SkipBlanks();
        var op := AddOp(s, pos);
        if op.None? {
          break;
        }
        pos := pos + 1;
        var rhs := ParseMul();
        v := Apply(op.value, v, rhs).value;
      }
    }

    method ParseCmp() returns (v: int)
      requires pos <= |s|
      modifies this
      ensures Outcome(v, pos, error) == Cmp(s, old(pos), old(error), env)
      decreases |s| - pos, 5
    {
      hide Apply, CmpOp, Sum, Op.Text;
      v := ParseAdd();
      while true
        invariant old(pos) <= pos <= |s|
        invariant CmpLoop(s, v, pos, error, env) == Cmp(s, old(pos), old(error), env)
        decreases |s| - pos
      {
        SkipBlanks();
        var op := CmpOp(s, pos);
        if op.None? {
          break;
        }
        pos := pos + |op.value.Text()|;
        var rhs := ParseAdd();
        v := Apply(op.value, v, rhs).value;
      }
    }
  }

  /** Evaluates a text; `ok` is false exactly when the error flag was set or some text was left over. */
  method ExprEval(s: Text, env: string -> int) returns (v: int, ok: bool)
    ensures (v, ok) == Eval(s, env)
  {
    var st := new Parser(s, env);
    v := st.ParseCmp();
    st.SkipBlanks();
    if st.pos != |s| {
      st.error := true;
    }
    ok := !st.error;
    if st.error {
      v := 0;
    }
  }
}
