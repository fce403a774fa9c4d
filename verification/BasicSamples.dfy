/** Two of the programs that come with the interpreter. */
module BasicSamples {
  import opened Basics
  import opened CInts
  import opened ExprGrammar
  import opened BasicMachine
  import opened BasicLoops
  import opened BasicJumps

  // ----- the factorial subroutine of FACT.BAS -----

  const F: Var := 5
  const I: Var := 8
  const R: Var := 17

  /** Lines 200 to 260. */
  const FACTORIAL := [
    Line(200, Other),
    Line(210, Let(R, Num(1, 1))),
    Line(220, Let(I, Num(1, 1))),
    Line(230, If(Binary(Greater, Name(0, "I"), 1, Name(1, "F")), Return)),
    Line(240, Let(R, Binary(Mul, Name(1, "R"), 1, Name(1, "I")))),
    Line(250, Let(I, Binary(Plus, Name(1, "I"), 1, Num(1, 1)))),
    Line(260, Goto(230))
  ]

  function Factorial(n: int): int { if n <= 0 then 1 else n * Factorial(n - 1) }

  ghost predicate HasFactorial(code: seq<Line>, c: nat) {
    Ascending(code) && c + 7 <= |code| && forall k :: 0 <= k < 7 ==> code[c + k] == FACTORIAL[k]
  }

  lemma FactorialLines(code: seq<Line>, c: nat)
    requires HasFactorial(code, c)
    ensures Ascending(code) && c + 7 <= |code| && Find(code, 200) == Some(c) && Find(code, 230) == Some(c + 3)
    ensures code[c] == FACTORIAL[0] && code[c + 1] == FACTORIAL[1] && code[c + 2] == FACTORIAL[2]
    ensures code[c + 3] == FACTORIAL[3] && code[c + 4] == FACTORIAL[4]
    ensures code[c + 5] == FACTORIAL[5] && code[c + 6] == FACTORIAL[6]
  {
    hide Ascending;
    assert code[c + 0] == FACTORIAL[0] && code[c + 3] == FACTORIAL[3];
    FindAscending(code, c);
    FindAscending(code, c + 3);
  }

  lemma FactorialStart(code: seq<Line>, c: nat, s: State)
    requires HasFactorial(code, c) && s.pc == c && !s.stop
    ensures Steps(code, s, 3) == s.(vars := s.vars[R := 1][I := 1], pc := c + 3)
  {
    hide Exec, Ascending;
    FactorialLines(code, c);
    StraightStep(code, code[c].stmt, s);
    var t := Step(code, s);
    StraightStep(code, code[c + 1].stmt, t);
    var u := Step(code, t);
    StraightStep(code, code[c + 2].stmt, u);
    OneStep(code, s, 2);
    OneStep(code, t, 1);
    OneStep(code, u, 0);
    NoStep(code, Step(code, u));
  }

  lemma FactorialTest(code: seq<Line>, c: nat, s: State)
    requires HasFactorial(code, c) && s.pc == c + 3 && !s.stop && s.vars[I] <= s.vars[F]
    ensures Running(code, s) && Step(code, s) == s.(pc := c + 4)
  {
    hide Exec, Ascending;
    FactorialLines(code, c);
    IfMeans(code, s, Binary(Greater, Name(0, "I"), 1, Name(1, "F")), Return);
  }

  lemma FactorialTimes(code: seq<Line>, c: nat, s: State)
    requires HasFactorial(code, c) && s.pc == c + 4 && !s.stop
    ensures Running(code, s)
    ensures Step(code, s) == s.(vars := s.vars[R := s.vars[R] * s.vars[I]], pc := c + 5)
  {
    hide Exec, Ascending;
    FactorialLines(code, c);
    StraightStep(code, code[c + 4].stmt, s);
  }

  lemma FactorialNext(code: seq<Line>, c: nat, s: State)
    requires HasFactorial(code, c) && s.pc == c + 5 && !s.stop
    ensures Running(code, s) && Step(code, s) == s.(vars := s.vars[I := s.vars[I] + 1], pc := c + 6)
  {
    hide Exec, Ascending;
    FactorialLines(code, c);
    StraightStep(code, code[c + 5].stmt, s);
  }

  lemma FactorialBack(code: seq<Line>, c: nat, s: State)
    requires HasFactorial(code, c) && s.pc == c + 6 && !s.stop
    ensures Running(code, s) && Step(code, s) == s.(pc := c + 3)
  {
    hide Exec, Ascending;
    FactorialLines(code, c);
    BackStep(code, s, c + 3);
  }

  /** One round: line 230 passed over, and lines 240 to 260. */
  lemma FactorialRound(code: seq<Line>, c: nat, s: State)
    requires HasFactorial(code, c) && s.pc == c + 3 && !s.stop && s.vars[I] <= s.vars[F]
    ensures Steps(code, s, 4) == s.(vars := s.vars[R := s.vars[R] * s.vars[I]][I := s.vars[I] + 1])
  {
    hide HasFactorial, Step, Steps, Running;
    FactorialTest(code, c, s);
    var t := Step(code, s);
    FactorialTimes(code, c, t);
    var u := Step(code, t);
    FactorialNext(code, c, u);
    var v := Step(code, u);
    FactorialBack(code, c, v);
    OneStep(code, s, 3);
    OneStep(code, t, 2);
    OneStep(code, u, 1);
    OneStep(code, v, 0);
    NoStep(code, Step(code, v));
  }

  lemma FactorialReturn(code: seq<Line>, c: nat, s: State, calls: seq<nat>, at: nat)
    requires HasFactorial(code, c) && s.pc == c + 3 && !s.stop && s.vars[I] > s.vars[F] && s.calls == calls + [at]
    ensures Steps(code, s, 1) == s.(calls := calls, pc := at + 1)
  {
    hide Exec, Ascending;
    FactorialLines(code, c);
    var plain := code[s.pc := Line(code[s.pc].number, Return)];
    IfMeans(code, s, Binary(Greater, Name(0, "I"), 1, Name(1, "F")), Return);
    ReturnStep(plain, s, calls, at);
    OneStep(code, s, 0);
    NoStep(code, Step(code, s));
  }

  lemma {:induction false} FactorialLoop(code: seq<Line>, c: nat, s: State, calls: seq<nat>, at: nat) returns (n: nat)
    requires HasFactorial(code, c) && s.pc == c + 3 && !s.stop && s.calls == calls + [at]
    requires s.vars[I] == 1 || s.vars[I] <= s.vars[F] + 1
    requires s.vars[I] >= 1 && s.vars[R] == Factorial(s.vars[I] - 1)
    ensures var f := s.vars[F];
      Steps(code, s, n)
      == State(s.vars[R := Factorial(f)][I := if f > 0 then f + 1 else 1], s.loops, calls, at + 1, false)
    decreases s.vars[F] - s.vars[I] + 1
  {
    hide HasFactorial, Steps;
    if s.vars[I] > s.vars[F] {
      FactorialReturn(code, c, s, calls, at);
      n := 1;
    } else {
      FactorialRound(code, c, s);
      var t := Steps(code, s, 4);
      var m := FactorialLoop(code, c, t, calls, at);
      StepsAdd(code, s, 4, m);
      n := 4 + m;
    }
  }

  /** Called from anywhere with room for a call, it leaves the factorial of F in R, and only I besides is changed. */
  lemma FactorialReturns(code: seq<Line>, c: nat, a: nat, vars: Vars, loops: seq<Frame>, calls: seq<nat>)
    returns (n: nat)
    requires HasFactorial(code, c) && a < |code| && code[a].stmt == Gosub(200) && |calls| < 16
    ensures var f := vars[F];
      Steps(code, State(vars, loops, calls, a, false), n)
      == State(vars[R := Factorial(f)][I := if f > 0 then f + 1 else 1], loops, calls, a + 1, false)
  {
    hide HasFactorial, Steps, Step, Exec;
    var s := State(vars, loops, calls, a, false);
    FactorialLines(code, c);
    GosubStep(code, s, 200, c);
    var t := Step(code, s);
    FactorialStart(code, c, t);
    var u := Steps(code, t, 3);
    var m := FactorialLoop(code, c, u, calls, a);
    StepsAdd(code, t, 3, m);
    OneStep(code, s, 3 + m);
    n := 1 + (3 + m);
  }

  // ----- GCD.BAS -----

  const A: Var := 0
  const B: Var := 1
  const T: Var := 19

  const EXIT := Binary(Equal, Name(0, "B"), 1, Num(1, 0))
  const REST := Binary(Minus, Name(1, "A"), 1, Binary(Mul, Group(1, Binary(Div, Name(0, "A"), 1, Name(1, "B")), 0), 1,
                                                     Name(1, "B")))

  /** The program, with any numbers for the 48 and the 36. */
  function GcdProgram(a: nat, b: nat): seq<Line> {
    [
      Line(10, Other),
      Line(20, Let(A, Num(1, a))),
      Line(30, Let(B, Num(1, b))),
      Line(40, Other),
      Line(50, If(EXIT, Goto(90))),
      Line(60, Let(T, Name(1, "B"))),
      Line(70, Let(B, REST)),
      Line(80, Let(A, Name(1, "T"))),
      Line(85, Goto(50)),
      Line(90, Other),
      Line(100, End)
    ]
  }

  const BODY := Act(Let(T, Name(1, "B")), Act(Let(B, REST), Act(Let(A, Name(1, "T")), Halt)))
  const EUCLID := While(EXIT, BODY, Act(Other, Halt))

  function GcdFlow(a: nat, b: nat): Flow {
    Act(Other, Act(Let(A, Num(1, a)), Act(Let(B, Num(1, b)), Act(Other, EUCLID))))
  }

  ghost predicate Divides(d: int, n: int) { exists k: int :: n == d * k }

  /** A common divisor that every common divisor divides. */
  ghost predicate IsGcd(g: int, a: int, b: int) {
    Divides(g, a) && Divides(g, b) && forall d: int :: Divides(d, a) && Divides(d, b) ==> Divides(d, g)
  }

  lemma DividesSum(d: int, x: int, y: int, q: int)
    requires Divides(d, x) && Divides(d, y)
    ensures Divides(d, x + q * y)
  {
    var j: int :| x == d * j;
    var k: int :| y == d * k;
    assert q * y == d * (q * k) by { assert q * (d * k) == d * (q * k); }
    assert x + q * y == d * (j + q * k);
  }

  /** Euclid's step. */
  lemma GcdStep(g: int, a: nat, b: nat)
    requires b > 0 && IsGcd(g, b, a % b)
    ensures IsGcd(g, a, b)
  {
    var q := a / b;
    assert a == q * b + a % b;
    DividesSum(g, a % b, b, q);
    forall d: int | Divides(d, a) && Divides(d, b) ensures Divides(d, g) {
      DividesSum(d, a, b, -q);
      assert a + -q * b == a % b;
    }
  }

  lemma GcdZero(a: int)
    ensures IsGcd(a, a, 0)
  {
    assert a == a * 1 && 0 == a * 0;
  }

  lemma ActMeant(stmt: Stmt, rest: Flow, vars: Vars, fuel: nat)
    requires Straight(stmt) && Simple(rest)
    ensures Simple(Act(stmt, rest)) && Meant(Act(stmt, rest), vars, fuel) == Meant(rest, Effect(stmt, vars), fuel)
  {
  }

  lemma LetEffect(target: Var, expr: Tree, vars: Vars, value: int)
    requires Evaluate(expr, vars) == Some(value)
    ensures Effect(Let(target, expr), vars) == vars[target := value] && Straight(Let(target, expr))
  {
  }

  lemma NameValue(vars: Vars)
    ensures Evaluate(Name(1, "B"), vars) == Some(vars[B]) && Evaluate(Name(1, "T"), vars) == Some(vars[T])
  {
  }

  lemma HaltMeant(vars: Vars, fuel: nat)
    ensures Simple(Halt) && Meant(Halt, vars, fuel) == Some(vars)
  {
  }

  lemma BodyMeans(vars: Vars, fuel: nat)
    requires vars[A] >= 0 && vars[B] > 0
    ensures Simple(BODY) && Meant(BODY, vars, fuel).Some?
    ensures var w := Meant(BODY, vars, fuel).value; w[A] == vars[B] && w[B] == vars[A] % vars[B]
  {
    hide Meant, Effect, Evaluate, Simple, Straight;
    var a, b := vars[A], vars[B];
    var v := vars[T := b];
    var w := v[B := a % b];
    var x := w[A := b];
    NameValue(vars);
    NameValue(w);
    RestMeans(v);
    LetEffect(T, Name(1, "B"), vars, b);
    LetEffect(B, REST, v, a % b);
    LetEffect(A, Name(1, "T"), w, b);
    HaltMeant(x, fuel);
    var last := Act(Let(A, Name(1, "T")), Halt);
    ActMeant(Let(A, Name(1, "T")), Halt, w, fuel);
    ActMeant(Let(B, REST), last, v, fuel);
    ActMeant(Let(T, Name(1, "B")), Act(Let(B, REST), last), vars, fuel);
  }

  lemma RestMeans(vars: Vars)
    requires vars[A] >= 0 && vars[B] > 0
    ensures Evaluate(REST, vars) == Some(vars[A] % vars[B])
  {
    hide Quotient, Remainder;
    var a, b := vars[A], vars[B];
    NaturalDivision(a, b);
    var env := (name: string) => Lookup(vars, name);
    var d := Binary(Div, Name(0, "A"), 1, Name(1, "B"));
    assert Value(Name(0, "A"), env) == Some(a) && Value(Name(1, "A"), env) == Some(a);
    assert Value(Name(1, "B"), env) == Some(b);
    assert Value(d, env) == Some(a / b);
    var m := Binary(Mul, Group(1, d, 0), 1, Name(1, "B"));
    assert Value(Group(1, d, 0), env) == Some(a / b);
    assert Value(m, env) == Some(a / b * b);
    assert a - a / b * b == a % b;
    assert Value(REST, env) == Some(a % b);
  }

  lemma ExitMeans(vars: Vars)
    ensures Holds(EXIT, vars) <==> vars[B] == 0
  {
  }

  lemma EuclidRound(vars: Vars, fuel: nat)
    requires vars[A] >= 0 && vars[B] >= 0 && fuel >= vars[B]
    ensures Simple(EUCLID)
    ensures vars[B] == 0 ==> Meant(EUCLID, vars, fuel) == Some(vars)
    ensures vars[B] > 0 ==>
      && Simple(BODY) && Meant(BODY, vars, fuel).Some?
      && Meant(EUCLID, vars, fuel) == Meant(EUCLID, Meant(BODY, vars, fuel).value, fuel - 1)
  {
    hide Holds, Effect, Evaluate;
    ExitMeans(vars);
    HaltMeant(vars, fuel);
    OtherEffect(vars);
    ActMeant(Other, Halt, vars, fuel);
    if vars[B] > 0 {
      BodyMeans(vars, fuel);
    } else {
      BodyIsSimple();
    }
  }

  lemma BodyIsSimple()
    ensures Simple(BODY)
  {
    var last := Act(Let(A, Name(1, "T")), Halt);
    assert Simple(last) && Simple(Act(Let(B, REST), last));
  }

  lemma OtherEffect(vars: Vars)
    ensures Straight(Other) && Effect(Other, vars) == vars
  {
  }

  lemma {:induction false} EuclidMeans(vars: Vars, fuel: nat)
    requires vars[A] >= 0 && vars[B] >= 0 && fuel >= vars[B]
    ensures Simple(EUCLID) && Meant(EUCLID, vars, fuel).Some?
    ensures var w := Meant(EUCLID, vars, fuel).value; w[B] == 0 && IsGcd(w[A], vars[A], vars[B])
    decreases fuel
  {
    hide Holds, IsGcd, Meant, Simple;
    EuclidRound(vars, fuel);
    if vars[B] == 0 {
      GcdZero(vars[A]);
    } else {
      BodyMeans(vars, fuel);
      var w := Meant(BODY, vars, fuel).value;
      EuclidMeans(w, fuel - 1);
      GcdStep(Meant(EUCLID, w, fuel - 1).value[A], vars[A], vars[B]);
    }
  }

  lemma NumberValue(n: nat, vars: Vars)
    ensures Evaluate(Num(1, n), vars) == Some(n)
  {
  }

  lemma FlowMeans(a: nat, b: nat, vars: Vars)
    ensures Simple(GcdFlow(a, b)) && Meant(GcdFlow(a, b), vars, b).Some?
    ensures var w := Meant(GcdFlow(a, b), vars, b).value; w[B] == 0 && IsGcd(w[A], a, b)
  {
    hide IsGcd, Meant, Simple, Effect, Evaluate, Straight;
    var v := vars[A := a];
    var w := v[B := b];
    EuclidMeans(w, b);
    NumberValue(a, vars);
    NumberValue(b, v);
    LetEffect(A, Num(1, a), vars, a);
    LetEffect(B, Num(1, b), v, b);
    OtherEffect(vars);
    OtherEffect(w);
    var p := Act(Other, EUCLID);
    var q := Act(Let(B, Num(1, b)), p);
    ActMeant(Other, EUCLID, w, b);
    ActMeant(Let(B, Num(1, b)), p, v, b);
    ActMeant(Let(A, Num(1, a)), q, vars, b);
    ActMeant(Other, Act(Let(A, Num(1, a)), q), vars, b);
  }

  lemma ActLaid(code: seq<Line>, a: nat, stmt: Stmt, rest: Flow)
    requires a < |code| && code[a].stmt == stmt && Laid(code, a + 1, rest)
    ensures Laid(code, a, Act(stmt, rest)) && Size(Act(stmt, rest)) == 1 + Size(rest)
  {
  }

  lemma HaltLaid(code: seq<Line>, a: nat)
    requires a <= |code|
    ensures Laid(code, a, Halt) && Size(Halt) == 0
  {
  }

  lemma WhileLaid(code: seq<Line>, a: nat, exit: Tree, body: Flow, rest: Flow, e: nat)
    requires e == a + 2 + Size(body) < |code| && code[a].stmt == If(exit, Goto(code[e].number))
    requires Laid(code, a + 1, body) && code[e - 1].stmt == Goto(code[a].number) && Laid(code, e, rest)
    ensures Laid(code, a, While(exit, body, rest)) && Size(While(exit, body, rest)) == 2 + Size(body) + Size(rest)
  {
  }

  lemma GcdOrder(a: nat, b: nat)
    ensures Ascending(GcdProgram(a, b))
  {
  }

  lemma FlowLaid(a: nat, b: nat)
    ensures var code := GcdProgram(a, b);
      && Ascending(code) && Laid(code, 0, GcdFlow(a, b)) && |code| == 11 && Size(GcdFlow(a, b)) == 10
      && code[10].stmt == End
  {
    hide Laid, Size, Ascending;
    GcdOrder(a, b);
    var code := GcdProgram(a, b);
    HaltLaid(code, 10);
    ActLaid(code, 9, Other, Halt);
    HaltLaid(code, 8);
    var last := Act(Let(A, Name(1, "T")), Halt);
    ActLaid(code, 7, Let(A, Name(1, "T")), Halt);
    ActLaid(code, 6, Let(B, REST), last);
    ActLaid(code, 5, Let(T, Name(1, "B")), Act(Let(B, REST), last));
    WhileLaid(code, 4, EXIT, BODY, Act(Other, Halt), 9);
    ActLaid(code, 3, Other, EUCLID);
    ActLaid(code, 2, Let(B, Num(1, b)), Act(Other, EUCLID));
    ActLaid(code, 1, Let(A, Num(1, a)), Act(Let(B, Num(1, b)), Act(Other, EUCLID)));
    ActLaid(code, 0, Other, Act(Let(A, Num(1, a)), Act(Let(B, Num(1, b)), Act(Other, EUCLID))));
  }

  /** Started with any variables, GCD.BAS ends, and then A is the greatest common divisor. */
  lemma GcdRuns(a: nat, b: nat, vars: Vars) returns (n: nat, g: int)
    ensures IsGcd(g, a, b)
    ensures forall ticks :: ticks >= n ==>
      var t := Steps(GcdProgram(a, b), Start(vars), ticks); t.stop && t.vars[A] == g && t.vars[B] == 0
  {
    hide Steps, Meant, Laid, Ascending, IsGcd, GcdProgram, Simple, Size;
    FlowLaid(a, b);
    FlowMeans(a, b, vars);
    g := Meant(GcdFlow(a, b), vars, b).value[A];
    n := RunsFlow(GcdProgram(a, b), GcdFlow(a, b), vars, b);
  }
}
