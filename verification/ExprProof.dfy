/** Evaluating what a tree is written as yields the tree's value. */
module ExprProof {
  import opened Basics
  import opened ExprGrammar
  import opened Evaluator

  /** The text `w` stands at position `i`. */
  predicate Here(s: Text, i: nat, w: string) {
    i + |w| <= |s| && s[i..i + |w|] == w
  }

  lemma HereSplit(s: Text, i: nat, a: string, b: string)
    requires Here(s, i, a + b)
    ensures Here(s, i, a) && Here(s, i + |a|, b)
  {
    assert (a + b)[..|a|] == a && (a + b)[|a|..] == b;
    assert s[i..i + |a|] == s[i..i + |a + b|][..|a|];
    assert s[i + |a|..i + |a| + |b|] == s[i..i + |a + b|][|a|..];
  }

  lemma HereSplit3(s: Text, i: nat, a: string, b: string, c: string)
    requires Here(s, i, a + b + c)
    ensures Here(s, i, a) && Here(s, i + |a|, b) && Here(s, i + |a| + |b|, c)
  {
    HereSplit(s, i, a + b, c);
    HereSplit(s, i, a, b);
  }

  lemma HereSplit4(s: Text, i: nat, a: string, b: string, c: string, d: string)
    requires Here(s, i, a + b + c + d)
    ensures Here(s, i, a) && Here(s, i + |a|, b) && Here(s, i + |a| + |b|, c) && Here(s, i + |a| + |b| + |c|, d)
  {
    HereSplit(s, i, a + b + c, d);
    HereSplit3(s, i, a, b, c);
  }

  lemma HereAt(s: Text, i: nat, w: string, k: nat)
    requires Here(s, i, w) && k < |w|
    ensures At(s, i + k) == w[k]
  {
    assert s[i..i + |w|][k] == s[i + k];
  }

  lemma {:induction false} SkipSpaces(s: Text, i: nat, n: nat)
    requires Here(s, i, Spaces(n))
    ensures Skip(s, i) == Skip(s, i + n)
    decreases n
  {
    if n > 0 {
      HereAt(s, i, Spaces(n), 0);
      assert Spaces(n) == Spaces(1) + Spaces(n - 1);
      HereSplit(s, i, Spaces(1), Spaces(n - 1));
      SkipSpaces(s, i + 1, n - 1);
    }
  }

  // ----- numerals and names -----

  lemma HereInside(s: Text, i: nat, w: string)
    requires Here(s, i, w)
    ensures i + |w| <= |s|
  {
  }

  /** One digit of a number. */
  lemma DigitOne(s: Text, j: nat, n: nat)
    requires At(s, j) == ('0' as int + n % 10) as char
    ensures j < |s| && Digits(s, j, 10, n / 10) == Digits(s, j + 1, 10, n)
  {
  }

  lemma {:induction false} DigitsRead(s: Text, i: nat, n: nat)
    requires Here(s, i, Decimal(n))
    ensures i + |Decimal(n)| <= |s|
    ensures Digits(s, i, 10, 0) == Digits(s, i + |Decimal(n)|, 10, n)
    decreases n
  {
    hide Here, Digits;
    if n < 10 {
      HereAt(s, i, Decimal(n), 0);
      DigitOne(s, i, n);
      HereInside(s, i, Decimal(n));
    } else {
      var head, last := Decimal(n / 10), [('0' as int + n % 10) as char];
      HereSplit(s, i, head, last);
      DigitsRead(s, i, n / 10);
      HereAt(s, i + |head|, last, 0);
      DigitOne(s, i + |head|, n);
      HereInside(s, i, Decimal(n));
    }
  }

  lemma NumeralRead(s: Text, i: nat, n: nat)
    requires Here(s, i, Decimal(n)) && !Word(At(s, i + |Decimal(n)|))
    ensures At(s, i) == Decimal(n)[0] && Numeral(s, i) == (n, i + |Decimal(n)|)
  {
    HereAt(s, i, Decimal(n), 0);
    if At(s, i) != '0' {
      assert Base(s, i) == 10;
    }
    DigitsRead(s, i, n);
    assert Digits(s, i, 10, 0) == Digits(s, i + 1, 10, DigitValue(s[i]));
  }

  lemma {:induction false} WordRead(s: Text, i: nat, id: string, k: nat)
    requires Here(s, i, id) && k <= |id| && !Word(At(s, i + |id|))
    requires forall j :: 0 <= j < |id| ==> Word(id[j])
    ensures WordEnd(s, i + k) == i + |id|
    decreases |id| - k
  {
    if k < |id| {
      HereAt(s, i, id, k);
      WordRead(s, i, id, k + 1);
    }
  }

  // ----- what may follow -----

  predicate NoMul(s: Text, e: nat)
    requires e <= |s|
  {
    MulOp(s, Skip(s, e)).None?
  }

  predicate NoAdd(s: Text, e: nat)
    requires e <= |s|
  {
    AddOp(s, Skip(s, e)).None?
  }

  /** No written expression begins like the second character of an operator. */
  predicate Opens(c: char) {
    c == ' ' || c == '(' || c == '+' || c == '-' || Word(c)
  }

  lemma {:induction false} PrintOpens(t: Tree, level: nat)
    ensures Print(t, level) != "" && Opens(Print(t, level)[0])
    decreases t, level + 1
  {
    match t {
      case Num(blanks, n) => if blanks == 0 { assert Print(t, level) == Decimal(n); }
      case Name(blanks, id) => if blanks == 0 { assert Print(t, level) == id; }
      case Group(blanks, inner, closing) =>
      case Signed(blanks, minus, operand) =>
      case Binary(op, left, blanks, right) => PrintOpens(left, op.Level());
    }
  }

  /** Blanks, an operator and the opening of its right operand stand at `m`. */
  lemma OperatorHere(s: Text, m: nat, blanks: nat, op: Op, next: char)
    requires Here(s, m, Spaces(blanks)) && Here(s, m + blanks, op.Text())
    requires At(s, m + blanks + |op.Text()|) == next && Opens(next)
    ensures var p := m + blanks;
      && Skip(s, m) == p && !Word(At(s, m))
      && (op.Level() == 2 ==> |op.Text()| == 1 && MulOp(s, p) == Some(op))
      && (op.Level() == 1 ==> |op.Text()| == 1 && MulOp(s, p) == None && AddOp(s, p) == Some(op))
      && (op.Level() == 0 ==> MulOp(s, p) == None && AddOp(s, p) == None && CmpOp(s, p) == Some(op))
  {
    var p := m + blanks;
    OperatorText(s, p, op);
    SkipSpaces(s, m, blanks);
    if blanks > 0 { HereAt(s, m, Spaces(blanks), 0); }
    hide Here, Op.Text;
  }

  lemma OperatorText(s: Text, p: nat, op: Op)
    requires Here(s, p, op.Text())
    ensures At(s, p) == op.Text()[0] && !Word(At(s, p)) && !Blank(At(s, p))
    ensures |op.Text()| == 2 ==> At(s, p + 1) == op.Text()[1]
    ensures op.Level() > 0 ==> |op.Text()| == 1
  {
    HereAt(s, p, op.Text(), 0);
    if |op.Text()| == 2 { HereAt(s, p, op.Text(), 1); }
  }

  // ----- the claims, level by level -----

  function Own(t: Tree): nat { if t.Binary? then t.op.Level() else 3 }

  /** Each level hands a tree to the next one, and around through parentheses, until its own is reached. */
  function Rank(t: Tree, level: nat): nat
    requires level <= 3
  {
    if level <= Own(t) then Own(t) - level else 4 - level + Own(t)
  }

  /** The tree is written at `i`, and what follows does not run into it. */
  predicate Written(t: Tree, level: nat, s: Text, i: nat) {
    Here(s, i, Print(t, level)) && !Word(At(s, i + |Print(t, level)|))
  }

  /** Where the parts of a binary expression lie that is written at `i` on its own level. */
  lemma BinaryParts(t: Tree, s: Text, i: nat)
    requires t.Binary? && Written(t, t.op.Level(), s, i)
    ensures var own := t.op.Level();
      var w, r := Print(t.left, own), Print(t.right, own + 1);
      var m := i + |w|;
      var q := m + t.blanks + |t.op.Text()|;
      && Here(s, i, w) && Here(s, m, Spaces(t.blanks)) && Here(s, m + t.blanks, t.op.Text()) && Here(s, q, r)
      && q + |r| == i + |Print(t, own)| && q < |s| && r != "" && At(s, q) == r[0] && Opens(r[0])
  {
    hide Here, Print, Op.Text, Op.Level, Opens, Word;
    var own := t.op.Level();
    var w, r := Print(t.left, own), Print(t.right, own + 1);
    PrintParts(t);
    PrintOpens(t.right, own + 1);
    HereSplit4(s, i, w, Spaces(t.blanks), t.op.Text(), r);
    HereAt(s, i + |w| + t.blanks + |t.op.Text()|, r, 0);
  }

  /** The parts of a binary expression that is written at `i` on its own level. */
  lemma BinaryHere(t: Tree, s: Text, i: nat)
    requires t.Binary? && Written(t, t.op.Level(), s, i)
    ensures var own := t.op.Level();
      var m := i + |Print(t.left, own)|;
      var p := m + t.blanks;
      var q := p + |t.op.Text()|;
      && Written(t.left, own, s, i) && Skip(s, m) == p && q <= |s|
      && (own == 2 ==> q == p + 1 && MulOp(s, p) == Some(t.op))
      && (own == 1 ==> q == p + 1 && MulOp(s, p) == None && AddOp(s, p) == Some(t.op))
      && (own == 0 ==> MulOp(s, p) == None && AddOp(s, p) == None && CmpOp(s, p) == Some(t.op))
      && Written(t.right, own + 1, s, q) && q + |Print(t.right, own + 1)| == i + |Print(t, own)|
  {
    hide Print, Here, Spaces, Op.Text, Op.Level, MulOp, AddOp, CmpOp, Skip, Opens, Word;
    var own := t.op.Level();
    var m := i + |Print(t.left, own)|;
    BinaryParts(t, s, i);
    OperatorHere(s, m, t.blanks, t.op, Print(t.right, own + 1)[0]);
  }

  lemma PrintParts(t: Tree)
    requires t.Binary?
    ensures Print(t, t.op.Level())
      == Print(t.left, t.op.Level()) + Spaces(t.blanks) + t.op.Text() + Print(t.right, t.op.Level() + 1)
  {
  }

  // ----- one round of each loop -----

  lemma MulRound(s: Text, v: int, m: nat, p: nat, op: Op, r: Outcome, error: bool, env: string -> int)
    requires m <= |s| && Skip(s, m) == p && MulOp(s, p) == Some(op) && Unary(s, p + 1, error, env) == r
    ensures r.error || Apply(op, v, r.value).None? ==> MulLoop(s, v, m, error, env).error
    ensures Apply(op, v, r.value).Some? ==>
      MulLoop(s, v, m, error, env) == MulLoop(s, Apply(op, v, r.value).value, r.pos, r.error, env)
  {
    hide Unary, Apply, MulOp, Skip;
  }

  lemma AddRound(s: Text, v: int, m: nat, p: nat, op: Op, r: Outcome, error: bool, env: string -> int)
    requires m <= |s| && Skip(s, m) == p && AddOp(s, p) == Some(op) && Product(s, p + 1, error, env) == r
    ensures r.error ==> AddLoop(s, v, m, error, env).error
    ensures Apply(op, v, r.value).Some?
    ensures AddLoop(s, v, m, error, env) == AddLoop(s, Apply(op, v, r.value).value, r.pos, r.error, env)
  {
    hide Product, Apply, AddOp, Skip;
  }

  lemma CmpRound(s: Text, v: int, m: nat, p: nat, op: Op, r: Outcome, error: bool, env: string -> int)
    requires m <= |s| && Skip(s, m) == p && CmpOp(s, p) == Some(op) && Sum(s, p + |op.Text()|, error, env) == r
    ensures r.error ==> CmpLoop(s, v, m, error, env).error
    ensures Apply(op, v, r.value).Some?
    ensures CmpLoop(s, v, m, error, env) == CmpLoop(s, Apply(op, v, r.value).value, r.pos, r.error, env)
  {
    hide Sum, Apply, CmpOp, Skip;
  }

  lemma SkipTwice(s: Text, e: nat)
    requires e <= |s|
    ensures Skip(s, Skip(s, e)) == Skip(s, e)
  {
  }

  /** Without an operator of its own a loop only skips blanks. */
  lemma LoopsStop(s: Text, v: int, e: nat, error: bool, env: string -> int)
    requires e <= |s|
    ensures NoMul(s, e) ==> MulLoop(s, v, e, error, env) == Outcome(v, Skip(s, e), error)
    ensures NoAdd(s, e) ==> AddLoop(s, v, e, error, env) == Outcome(v, Skip(s, e), error)
  {
    hide Unary, Product, Apply, MulOp, AddOp, Skip;
  }

  /** Blanks before the next operator make no difference to the loops. */
  lemma LoopsSkip(s: Text, v: int, e: nat, error: bool, env: string -> int)
    requires e <= |s|
    ensures NoMul(s, e) ==> MulLoop(s, v, e, error, env) == Outcome(v, Skip(s, e), error)
    ensures AddLoop(s, v, Skip(s, e), error, env) == AddLoop(s, v, e, error, env)
    ensures NoAdd(s, e) ==> AddLoop(s, v, e, error, env) == Outcome(v, Skip(s, e), error)
    ensures CmpLoop(s, v, Skip(s, e), error, env) == CmpLoop(s, v, e, error, env)
  {
    hide Product, Sum, Apply, MulLoop, MulOp, AddOp, CmpOp, Skip, NoMul, NoAdd;
    SkipTwice(s, e);
    LoopsStop(s, v, e, error, env);
  }

  // ----- the levels -----

  lemma NumOk(blanks: nat, n: nat, s: Text, i: nat, error: bool, env: string -> int)
    requires Here(s, i, Spaces(blanks) + Decimal(n)) && !Word(At(s, i + blanks + |Decimal(n)|))
    ensures Unary(s, i, error, env) == Outcome(n, i + blanks + |Decimal(n)|, error)
  {
    hide Numeral, Here, Decimal;
    HereSplit(s, i, Spaces(blanks), Decimal(n));
    SkipSpaces(s, i, blanks);
    NumeralRead(s, i + blanks, n);
  }

  lemma NameOk(blanks: nat, id: Ident, s: Text, i: nat, error: bool, env: string -> int)
    requires Here(s, i, Spaces(blanks) + id) && !Word(At(s, i + blanks + |id|))
    ensures Unary(s, i, error, env) == Outcome(env(id), i + blanks + |id|, error)
  {
    HereSplit(s, i, Spaces(blanks), id);
    SkipSpaces(s, i, blanks);
    HereAt(s, i + blanks, id, 0);
    WordRead(s, i + blanks, id, 0);
  }

  lemma SignHere(blanks: nat, minus: bool, w: string, s: Text, i: nat)
    requires Here(s, i, Spaces(blanks) + (if minus then "-" else "+") + w)
    ensures Skip(s, i) == i + blanks && At(s, i + blanks) == (if minus then '-' else '+') && Here(s, i + blanks + 1, w)
  {
    var sign := if minus then "-" else "+";
    HereSplit3(s, i, Spaces(blanks), sign, w);
    SkipSpaces(s, i, blanks);
    HereAt(s, i + blanks, sign, 0);
  }

  /** How trees that are no binary expressions are written, and binary ones in parentheses. */
  lemma PrintAtom(t: Tree)
    ensures Print(t, 3) ==
      match t
      case Num(blanks, n) => Spaces(blanks) + Decimal(n)
      case Name(blanks, id) => Spaces(blanks) + id
      case Group(blanks, inner, closing) => Spaces(blanks) + "(" + Print(inner, 0) + Spaces(closing) + ")"
      case Signed(blanks, minus, operand) => Spaces(blanks) + (if minus then "-" else "+") + Print(operand, 3)
      case Binary(_, _, _, _) => Spaces(0) + "(" + Print(t, 0) + Spaces(0) + ")"
  {
  }

  lemma SignedOk(operand: Tree, blanks: nat, minus: bool, s: Text, i: nat, error: bool, env: string -> int, r: Outcome)
    requires Here(s, i, Spaces(blanks) + (if minus then "-" else "+") + Print(operand, 3))
    requires Unary(s, i + blanks + 1, error, env) == r
    ensures Unary(s, i, error, env) == if minus then r.(value := -r.value) else r
  {
    hide Here, Spaces, Print, Primary;
    SignHere(blanks, minus, Print(operand, 3), s, i);
  }

  lemma {:induction false} UnaryOk(t: Tree, s: Text, i: nat, error: bool, env: string -> int)
    requires Written(t, 3, s, i)
    ensures match Value(t, env)
            case Some(v) => Unary(s, i, error, env) == Outcome(v, i + |Print(t, 3)|, error)
            case None => Unary(s, i, error, env).error
    decreases t, Rank(t, 3)
  {
    hide Print, Unary, Here, Spaces, Decimal, Cmp, CmpLoop, NoMul, NoAdd;
    PrintAtom(t);
    match t {
      case Num(blanks, n) => NumOk(blanks, n, s, i, error, env);
      case Name(blanks, id) => NameOk(blanks, id, s, i, error, env);
      case Group(blanks, inner, closing) => GroupOk(inner, blanks, closing, s, i, error, env);
      case Signed(blanks, minus, operand) =>
        SignHere(blanks, minus, Print(operand, 3), s, i);
        UnaryOk(operand, s, i + blanks + 1, error, env);
        SignedOk(operand, blanks, minus, s, i, error, env, Unary(s, i + blanks + 1, error, env));
      case Binary(op, left, blanks, right) =>
        ParensOk(Print(t, 0), 0, 0, s, i);
        CmpOk(t, s, i + 1, error, env);
        ClosedOk(Print(t, 0), 0, 0, s, i, error, env, Value(t, env));
    }
  }

  /** Skipping blanks leads to the character behind them. */
  lemma SkipTo(s: Text, i: nat, n: nat)
    requires Here(s, i, Spaces(n)) && (At(s, i + n) == '(' || At(s, i + n) == ')')
    ensures i + n < |s| && Skip(s, i) == i + n
  {
    hide Here, Spaces;
    SkipSpaces(s, i, n);
    HereInside(s, i, Spaces(n));
    SkipHere(s, i + n);
  }

  /** Nothing that stands before a closing parenthesis goes on behind it. */
  lemma EndsThere(s: Text, e: nat, n: nat)
    requires Here(s, e, Spaces(n)) && e + n < |s| && Skip(s, e) == e + n && At(s, e + n) == ')'
    ensures !Word(At(s, e)) && NoMul(s, e) && NoAdd(s, e)
  {
    hide Here, Spaces, Skip;
    if n > 0 { HereAt(s, e, Spaces(n), 0); }
  }

  /** What parentheses around a written expression `w` mean for its surroundings. */
  lemma ParensOk(w: string, blanks: nat, closing: nat, s: Text, i: nat)
    requires Here(s, i, Spaces(blanks) + "(" + w + Spaces(closing) + ")")
    ensures var p, e := i + blanks, i + blanks + 1 + |w|;
      && Skip(s, i) == p && At(s, p) == '(' && Here(s, p + 1, w) && e + closing < |s|
      && Skip(s, e) == e + closing && At(s, e + closing) == ')' && !Word(At(s, e)) && NoMul(s, e) && NoAdd(s, e)
  {
    hide Here, Spaces, Word, Skip, NoMul, NoAdd;
    var p, e := i + blanks, i + blanks + 1 + |w|;
    HereSplit3(s, i, Spaces(blanks) + "(" + w, Spaces(closing), ")");
    HereSplit3(s, i, Spaces(blanks), "(", w);
    HereAt(s, p, "(", 0);
    HereAt(s, e + closing, ")", 0);
    SkipTo(s, i, blanks);
    SkipTo(s, e, closing);
    EndsThere(s, e, closing);
  }

  /** Given what the comparison level makes of `w`, what the primary level makes of it in parentheses. */
  lemma ClosedOk(w: string, blanks: nat, closing: nat, s: Text, i: nat, error: bool, env: string -> int,
                 value: Option<int>)
    requires Here(s, i, Spaces(blanks) + "(" + w + Spaces(closing) + ")")
    requires var p, e := i + blanks, i + blanks + 1 + |w|;
      match value
      case Some(v) => Cmp(s, p + 1, error, env) == CmpLoop(s, v, e, error, env)
      case None => Cmp(s, p + 1, error, env).error
    ensures match value
            case Some(v) => Unary(s, i, error, env) == Outcome(v, i + blanks + 1 + |w| + closing + 1, error)
            case None => Unary(s, i, error, env).error
  {
    hide Here, Spaces;
    ParensOk(w, blanks, closing, s, i);
    ClosedAt(s, i, i + blanks, i + blanks + 1 + |w|, i + blanks + 1 + |w| + closing, error, env, value);
  }

  lemma SkipHere(s: Text, p: nat)
    requires p <= |s| && !Blank(At(s, p))
    ensures Skip(s, p) == p
  {
  }

  lemma ClosedAt(s: Text, i: nat, p: nat, e: nat, q: nat, error: bool, env: string -> int, value: Option<int>)
    requires i <= p < e <= q < |s| && Skip(s, i) == p && At(s, p) == '(' && Skip(s, e) == q && At(s, q) == ')'
    requires match value
      case Some(v) => Cmp(s, p + 1, error, env) == CmpLoop(s, v, e, error, env)
      case None => Cmp(s, p + 1, error, env).error
    ensures match value
            case Some(v) => Unary(s, i, error, env) == Outcome(v, q + 1, error)
            case None => Unary(s, i, error, env).error
  {
    hide Cmp, Skip, Sum;
    SkipHere(s, p);
    SkipHere(s, q);
    assert Unary(s, i, error, env) == Primary(s, i, error, env);
  }

  lemma {:induction false} GroupOk(inner: Tree, blanks: nat, closing: nat, s: Text, i: nat, error: bool,
                                   env: string -> int)
    requires Here(s, i, Spaces(blanks) + "(" + Print(inner, 0) + Spaces(closing) + ")")
    ensures match Value(inner, env)
            case Some(v) => Unary(s, i, error, env)
              == Outcome(v, i + blanks + 1 + |Print(inner, 0)| + closing + 1, error)
            case None => Unary(s, i, error, env).error
    decreases inner, 5
  {
    hide Here, Spaces, Print, Cmp, Unary, Skip, NoMul, NoAdd;
    ParensOk(Print(inner, 0), blanks, closing, s, i);
    CmpOk(inner, s, i + blanks + 1, error, env);
    ClosedOk(Print(inner, 0), blanks, closing, s, i, error, env, Value(inner, env));
  }

  /** Trees of another level are written the same one level up. */
  lemma PrintHigher(t: Tree, level: nat)
    requires level < 3 && Own(t) != level
    ensures Print(t, level) == Print(t, level + 1)
  {
  }

  lemma {:induction false} MulOk(t: Tree, s: Text, i: nat, error: bool, env: string -> int)
    requires Written(t, 2, s, i)
    ensures match Value(t, env)
            case Some(v) => Product(s, i, error, env) == MulLoop(s, v, i + |Print(t, 2)|, error, env)
            case None => Product(s, i, error, env).error
    decreases t, Rank(t, 2)
  {
    hide Print, Unary, MulLoop, MulOp, Apply, Here;
    if Own(t) == 2 {
      BinaryHere(t, s, i);
      var m := i + |Print(t.left, 2)|;
      MulOk(t.left, s, i, error, env);
      UnaryOk(t.right, s, m + t.blanks + 1, error, env);
      if Value(t.left, env).Some? {
        MulRound(s, Value(t.left, env).value, m, m + t.blanks, t.op, Unary(s, m + t.blanks + 1, error, env), error,
          env);
      }
    } else {
      PrintHigher(t, 2);
      UnaryOk(t, s, i, error, env);
    }
  }

  lemma AddLifts(s: Text, value: Option<int>, i: nat, e: nat, error: bool, env: string -> int)
    requires i <= |s| && e <= |s| && NoMul(s, e)
    requires match value
      case Some(v) => Product(s, i, error, env) == MulLoop(s, v, e, error, env)
      case None => Product(s, i, error, env).error
    ensures match value
            case Some(v) => Sum(s, i, error, env) == AddLoop(s, v, e, error, env)
            case None => Sum(s, i, error, env).error
  {
    hide Product, MulLoop, NoMul, Skip;
    if value.Some? {
      LoopsSkip(s, value.value, e, error, env);
      hide AddLoop;
    }
  }

  /** A sum, from its parts. */
  lemma AddBinary(t: Tree, s: Text, i: nat, m: nat, p: nat, e: nat, error: bool, env: string -> int)
    requires t.Binary? && t.op.Level() == 1 && i <= |s| && m <= p < |s| && e <= |s| && NoMul(s, e)
    requires Skip(s, m) == p && AddOp(s, p) == Some(t.op)
    requires match Value(t.left, env)
      case Some(v) => Sum(s, i, error, env) == AddLoop(s, v, m, error, env)
      case None => Sum(s, i, error, env).error
    requires match Value(t.right, env)
      case Some(v) => Product(s, p + 1, error, env) == MulLoop(s, v, e, error, env)
      case None => Product(s, p + 1, error, env).error
    ensures match Value(t, env)
            case Some(v) => Sum(s, i, error, env) == AddLoop(s, v, e, error, env)
            case None => Sum(s, i, error, env).error
  {
    hide Sum, Product, MulLoop, AddLoop, AddOp, Apply, NoMul, Skip;
    if Value(t.left, env).Some? {
      AddRound(s, Value(t.left, env).value, m, p, t.op, Product(s, p + 1, error, env), error, env);
      if Value(t.right, env).Some? {
        LoopsSkip(s, Value(t.right, env).value, e, error, env);
        LoopsSkip(s, Value(t, env).value, e, error, env);
      }
    }
  }

  lemma {:induction false} AddOk(t: Tree, s: Text, i: nat, error: bool, env: string -> int)
    requires Written(t, 1, s, i) && NoMul(s, i + |Print(t, 1)|)
    ensures match Value(t, env)
            case Some(v) => Sum(s, i, error, env) == AddLoop(s, v, i + |Print(t, 1)|, error, env)
            case None => Sum(s, i, error, env).error
    decreases t, Rank(t, 1)
  {
    hide Print, Product, MulLoop, AddLoop, Sum, MulOp, AddOp, Apply, Here, Word;
    var e := i + |Print(t, 1)|;
    if Own(t) == 1 {
      BinaryHere(t, s, i);
      var m := i + |Print(t.left, 1)|;
      AddOk(t.left, s, i, error, env);
      MulOk(t.right, s, m + t.blanks + 1, error, env);
      AddBinary(t, s, i, m, m + t.blanks, e, error, env);
    } else {
      PrintHigher(t, 1);
      MulOk(t, s, i, error, env);
      AddLifts(s, Value(t, env), i, e, error, env);
    }
  }

  lemma CmpLifts(s: Text, value: Option<int>, i: nat, e: nat, error: bool, env: string -> int)
    requires i <= |s| && e <= |s| && NoAdd(s, e)
    requires match value
      case Some(v) => Sum(s, i, error, env) == AddLoop(s, v, e, error, env)
      case None => Sum(s, i, error, env).error
    ensures match value
            case Some(v) => Cmp(s, i, error, env) == CmpLoop(s, v, e, error, env)
            case None => Cmp(s, i, error, env).error
  {
    hide Sum, AddLoop, NoAdd, Skip;
    if value.Some? {
      LoopsSkip(s, value.value, e, error, env);
      hide CmpLoop;
    }
  }

  /** A comparison, from its parts. */
  lemma CmpBinary(t: Tree, s: Text, i: nat, m: nat, p: nat, e: nat, error: bool, env: string -> int)
    requires t.Binary? && t.op.Level() == 0 && i <= |s| && m <= p && p + |t.op.Text()| <= |s| && e <= |s| && NoAdd(s, e)
    requires Skip(s, m) == p && CmpOp(s, p) == Some(t.op)
    requires match Value(t.left, env)
      case Some(v) => Cmp(s, i, error, env) == CmpLoop(s, v, m, error, env)
      case None => Cmp(s, i, error, env).error
    requires match Value(t.right, env)
      case Some(v) => Sum(s, p + |t.op.Text()|, error, env) == AddLoop(s, v, e, error, env)
      case None => Sum(s, p + |t.op.Text()|, error, env).error
    ensures match Value(t, env)
            case Some(v) => Cmp(s, i, error, env) == CmpLoop(s, v, e, error, env)
            case None => Cmp(s, i, error, env).error
  {
    hide Cmp, Sum, AddLoop, CmpLoop, CmpOp, Apply, NoAdd, Skip, Op.Text;
    if Value(t.left, env).Some? {
      CmpRound(s, Value(t.left, env).value, m, p, t.op, Sum(s, p + |t.op.Text()|, error, env), error, env);
      if Value(t.right, env).Some? {
        LoopsSkip(s, Value(t.right, env).value, e, error, env);
        LoopsSkip(s, Value(t, env).value, e, error, env);
      }
    }
  }

  lemma {:induction false} CmpOk(t: Tree, s: Text, i: nat, error: bool, env: string -> int)
    requires Written(t, 0, s, i) && NoMul(s, i + |Print(t, 0)|) && NoAdd(s, i + |Print(t, 0)|)
    ensures match Value(t, env)
            case Some(v) => Cmp(s, i, error, env) == CmpLoop(s, v, i + |Print(t, 0)|, error, env)
            case None => Cmp(s, i, error, env).error
    decreases t, Rank(t, 0)
  {
    hide Print, Sum, AddLoop, CmpLoop, Cmp, MulOp, AddOp, CmpOp, Apply, Here, Op.Text, Word;
    var e := i + |Print(t, 0)|;
    if Own(t) == 0 {
      BinaryHere(t, s, i);
      var m := i + |Print(t.left, 0)|;
      CmpOk(t.left, s, i, error, env);
      AddOk(t.right, s, m + t.blanks + |t.op.Text()|, error, env);
      CmpBinary(t, s, i, m, m + t.blanks, e, error, env);
    } else {
      PrintHigher(t, 0);
      AddOk(t, s, i, error, env);
      CmpLifts(s, Value(t, env), i, e, error, env);
    }
  }

  /** Everything a written expression consists of is a character of the language, so no terminator is. */
  lemma {:induction false} PrintIsText(t: Tree, level: nat)
    ensures forall k :: 0 <= k < |Print(t, level)| ==> Print(t, level)[k] != '\0'
    decreases t, level + 1
  {
    match t {
      case Num(blanks, n) =>
      case Name(blanks, id) =>
      case Group(blanks, inner, closing) =>
        PrintIsText(inner, 0);
        assert Print(t, level) == Spaces(blanks) + "(" + Print(inner, 0) + Spaces(closing) + ")";
      case Signed(blanks, minus, operand) =>
        PrintIsText(operand, 3);
        assert Print(t, level) == Spaces(blanks) + (if minus then "-" else "+") + Print(operand, 3);
      case Binary(op, left, blanks, right) =>
        PrintIsText(left, op.Level());
        PrintIsText(right, op.Level() + 1);
        PrintParts(t);
        hide Op.Level;
        assert Print(t, level) == PrintBare(t) || Print(t, level) == "(" + PrintBare(t) + ")";
    }
  }

  /**
   Evaluating what a tree is written as, with any blanks behind it, yields the tree's value; the
   evaluation fails exactly when some divisor is zero.
   */
  lemma EvaluatesTree(t: Tree, trailing: nat, env: string -> int)
    ensures forall k :: 0 <= k < |Print(t, 0) + Spaces(trailing)| ==> (Print(t, 0) + Spaces(trailing))[k] != '\0'
    ensures Eval(Print(t, 0) + Spaces(trailing), env)
      == match Value(t, env) case Some(v) => (v, true) case None => (0, false)
  {
    hide Print, Cmp, Value;
    PrintIsText(t, 0);
    var s: Text := Print(t, 0) + Spaces(trailing);
    var e := |Print(t, 0)|;
    assert s[0..0 + e] == Print(t, 0);
    assert s[e..e + trailing] == Spaces(trailing);
    SkipSpaces(s, e, trailing);
    assert Skip(s, e) == |s| && At(s, |s|) == '\0';
    if trailing > 0 { assert At(s, e) == ' '; }
    CmpOk(t, s, 0, false, env);
  }
}
