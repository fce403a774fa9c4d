/** Jumps: what a single one does, and that loops written with IF and GOTO are structured loops. */
module BasicJumps {
  import opened Basics
  import opened ExprGrammar
  import opened BasicMachine
  import opened BasicLoops

  predicate Has(code: seq<Line>, number: int) {
    exists i :: 0 <= i < |code| && code[i].number == number
  }

  /** The line that a jump to `number` leads to, where it is the first of that number. */
  predicate FirstOf(code: seq<Line>, number: int, pc: int) {
    0 <= pc < |code| && code[pc].number == number && forall j :: 0 <= j < pc ==> code[j].number != number
  }

  lemma {:induction false} FindIsFirst(code: seq<Line>, number: int)
    ensures match Find(code, number)
            case Some(i) => FirstOf(code, number, i)
            case None => !Has(code, number)
  {
    if code != [] && code[0].number != number {
      FindIsFirst(code[1..], number);
      var r := Find(code, number);
      if r.Some? {
        forall j | 0 <= j < r.value ensures code[j].number != number {
          if j > 0 { assert code[j] == code[1..][j - 1]; }
        }
      }
    }
  }

  // ----- one statement -----

  /** GOTO goes on at the line of that number; a number that is not stored is passed over. */
  lemma GotoMeans(code: seq<Line>, s: State, number: int)
    requires Running(code, s) && code[s.pc].stmt == Goto(number)
    ensures var t := Step(code, s);
      && t.vars == s.vars && t.loops == s.loops && t.calls == s.calls && !t.stop
      && (Has(code, number) ==> FirstOf(code, number, t.pc))
      && (!Has(code, number) ==> t.pc == s.pc + 1)
  {
    FindIsFirst(code, number);
  }

  /** GOSUB also remembers where it was; it is passed over when the line is missing or sixteen calls are open. */
  lemma GosubMeans(code: seq<Line>, s: State, number: int)
    requires Running(code, s) && code[s.pc].stmt == Gosub(number)
    ensures var t := Step(code, s);
      && t.vars == s.vars && t.loops == s.loops && !t.stop
      && (Has(code, number) && |s.calls| < 16 ==> FirstOf(code, number, t.pc) && t.calls == s.calls + [s.pc])
      && (!Has(code, number) || |s.calls| >= 16 ==> t.pc == s.pc + 1 && t.calls == s.calls)
  {
    FindIsFirst(code, number);
  }

  /** RETURN goes on behind the latest open call, and is passed over without one. */
  lemma ReturnMeans(code: seq<Line>, s: State)
    requires Running(code, s) && code[s.pc].stmt == Return
    ensures var t := Step(code, s);
      && t.vars == s.vars && t.loops == s.loops && !t.stop
      && (s.calls != [] ==> t.calls + [t.pc - 1] == s.calls)
      && (s.calls == [] ==> t.pc == s.pc + 1 && t.calls == [])
  {
  }

  /** END ends the run: however many more statements may run, nothing changes. */
  lemma EndMeans(code: seq<Line>, s: State, n: nat)
    requires Running(code, s) && code[s.pc].stmt == End && n > 0
    ensures var t := Steps(code, s, n);
      t.stop && t.vars == s.vars && t.loops == s.loops && t.calls == s.calls && t.pc == s.pc + 1
  {
  }

  /** LET changes what names with the variable's letter are worth, and nothing else. */
  lemma LetMeans(code: seq<Line>, s: State, target: Var, expr: Tree, id: Ident)
    requires Running(code, s) && code[s.pc].stmt == Let(target, expr)
    ensures var t := Step(code, s);
      && t == s.(vars := t.vars, pc := s.pc + 1)
      && Evaluate(Name(0, id), t.vars)
         == if (id[0] as int == 'A' as int + target || id[0] as int == 'a' as int + target)
               && Evaluate(expr, s.vars).Some?
            then Evaluate(expr, s.vars) else Evaluate(Name(0, id), s.vars)
  {
  }

  lemma {:induction false} FindSame(code: seq<Line>, more: seq<Line>, number: int)
    requires |code| == |more| && forall i :: 0 <= i < |code| ==> code[i].number == more[i].number
    ensures Find(code, number) == Find(more, number)
  {
    if code != [] {
      FindSame(code[1..], more[1..], number);
    }
  }

  lemma {:induction false} MatchingSame(code: seq<Line>, more: seq<Line>, i: nat, depth: nat)
    requires |code| == |more| && i <= |code| && depth > 0
    requires forall k :: i <= k < |code| ==> code[k] == more[k]
    ensures MatchingNext(code, i, depth) == MatchingNext(more, i, depth)
    decreases |code| - i
  {
    if i < |code| {
      MatchingSame(code, more, i + 1, depth);
      MatchingSame(code, more, i + 1, depth + 1);
      if depth > 1 { MatchingSame(code, more, i + 1, depth - 1); }
    }
  }

  lemma {:induction false} ExecSame(code: seq<Line>, stmt: Stmt, other: Stmt, s: State)
    requires 0 <= s.pc < |code|
    ensures Exec(code[s.pc := Line(code[s.pc].number, other)], stmt, s) == Exec(code, stmt, s)
  {
    var more := code[s.pc := Line(code[s.pc].number, other)];
    match stmt {
      case If(cond, action) => ExecSame(code, action, other, s);
      case For(_, _, _, _) => MatchingSame(code, more, s.pc + 1, 1);
      case Goto(number) => FindSame(code, more, number);
      case Gosub(number) => FindSame(code, more, number);
      case _ =>
    }
  }

  /** A condition without a value does not hold. */
  predicate Holds(cond: Tree, vars: Vars) {
    match Evaluate(cond, vars) case None => false case Some(v) => v != 0
  }

  /** IF is its action where the condition is worth something other than 0, and otherwise is passed over. */
  lemma IfMeans(code: seq<Line>, s: State, cond: Tree, action: Stmt)
    requires Running(code, s) && code[s.pc].stmt == If(cond, action)
    ensures var plain := code[s.pc := Line(code[s.pc].number, action)];
      Step(code, s) == if Holds(cond, s.vars) then Step(plain, s) else s.(pc := s.pc + 1)
  {
    ExecSame(code, action, action, s);
  }

  /** NEXTs less FORs on the lines from `a` to before `b`. */
  function Surplus(code: seq<Line>, a: nat, b: nat): int
    requires a <= b <= |code|
  {
    if a == b then 0
    else Surplus(code, a, b - 1) + if code[b - 1].stmt.Next? then 1 else if code[b - 1].stmt.For? then -1 else 0
  }

  lemma {:induction false} SurplusFirst(code: seq<Line>, a: nat, b: nat)
    requires a < b <= |code|
    ensures Surplus(code, a, b)
         == (if code[a].stmt.Next? then 1 else if code[a].stmt.For? then -1 else 0) + Surplus(code, a + 1, b)
    decreases b
  {
    if a + 1 < b {
      SurplusFirst(code, a, b - 1);
    }
  }

  /** The NEXT at `i` is the first one for which the lines from `a` on hold `depth` more NEXTs than FORs. */
  ghost predicate Closes(code: seq<Line>, a: nat, depth: nat, i: nat) {
    a <= i < |code| && Surplus(code, a, i + 1) == depth && forall j: nat :: a <= j <= i ==> Surplus(code, a, j) < depth
  }

  lemma {:induction false} MatchingCloses(code: seq<Line>, a: nat, depth: nat)
    requires a <= |code| && depth > 0
    ensures match MatchingNext(code, a, depth)
            case Some(i) => Closes(code, a, depth, i)
            case None => forall j: nat :: a <= j <= |code| ==> Surplus(code, a, j) < depth
    decreases |code| - a
  {
    if a < |code| {
      var stmt := code[a].stmt;
      var more := if stmt.For? then depth + 1 else if stmt.Next? then depth - 1 else depth;
      assert Surplus(code, a, a) == 0;
      forall j: nat | a < j <= |code| ensures Surplus(code, a, j) == Surplus(code, a + 1, j) + depth - more {
        SurplusFirst(code, a, j);
      }
      if more > 0 {
        MatchingCloses(code, a + 1, more);
      }
    }
  }

  ghost predicate IsClosed(code: seq<Line>, a: nat) { exists i: nat :: Closes(code, a, 1, i) }

  lemma MatchingClosed(code: seq<Line>, a: nat)
    requires a <= |code|
    ensures match MatchingNext(code, a, 1)
            case Some(i) => Closes(code, a, 1, i) && IsClosed(code, a)
            case None => !IsClosed(code, a)
  {
    hide Surplus;
    MatchingCloses(code, a, 1);
    if MatchingNext(code, a, 1).None? {
      forall i: nat ensures !Closes(code, a, 1, i) {
        NeverCloses(code, a, i);
      }
    }
  }

  lemma NeverCloses(code: seq<Line>, a: nat, i: nat)
    requires forall j: nat :: a <= j <= |code| ==> Surplus(code, a, j) < 1
    ensures !Closes(code, a, 1, i)
  {
    hide Surplus;
  }

  /** The three numbers of a FOR, when they are there and the step is not 0. */
  predicate Counts(f: Stmt, vars: Vars, x: int, y: int, z: int) {
    && f.For? && Evaluate(f.start, vars) == Some(x) && Evaluate(f.limit, vars) == Some(y)
    && Evaluate(f.step, vars) == Some(z) && z != 0
  }

  /** A FOR without three such numbers is passed over. */
  lemma BadForMeans(code: seq<Line>, s: State)
    requires Running(code, s) && code[s.pc].stmt.For?
    requires forall x, y, z :: !Counts(code[s.pc].stmt, s.vars, x, y, z)
    ensures Step(code, s) == s.(pc := s.pc + 1)
  {
    hide MatchingNext;
    var f := code[s.pc].stmt;
    var x, y, z := Evaluate(f.start, s.vars), Evaluate(f.limit, s.vars), Evaluate(f.step, s.vars);
    if x.Some? && y.Some? && z.Some? {
      assert !Counts(f, s.vars, x.value, y.value, z.value);
    }
  }

  /**
   FOR sets its variable. Beyond the limit it goes on behind the NEXT that closes it, if one does; else it opens a
   loop, if fewer than sixteen are open, and goes on with the next line.
   */
  lemma ForMeans(code: seq<Line>, s: State, x: int, y: int, z: int)
    requires Running(code, s) && Counts(code[s.pc].stmt, s.vars, x, y, z)
    ensures var t, c, past := Step(code, s), code[s.pc].stmt.counter, if z > 0 then x > y else x < y;
      && t.vars == s.vars[c := x] && t.calls == s.calls && !t.stop
      && (past || |s.loops| >= 16 ==> t.loops == s.loops)
      && (!past ==> t.pc == s.pc + 1 && (|s.loops| < 16 ==> t.loops == s.loops + [Frame(c, y, z, s.pc)]))
      && (past ==> if IsClosed(code, s.pc + 1) then t.pc > 0 && Closes(code, s.pc + 1, 1, t.pc - 1)
                   else t.pc == s.pc + 1)
  {
    hide Closes, Surplus;
    MatchingClosed(code, s.pc + 1);
  }

  /**
   NEXT is passed over when no loop is open, or another one than it names. Else it steps the variable of the loop, and
   goes back behind the FOR while the limit is not passed, and otherwise closes the loop.
   */
  lemma NextMeans(code: seq<Line>, s: State, named: Option<Var>)
    requires Running(code, s) && code[s.pc].stmt == Next(named)
    ensures var t := Step(code, s);
      if s.loops == [] || (named.Some? && named.value != s.loops[|s.loops| - 1].counter) then t == s.(pc := s.pc + 1)
      else
        var outer, f := s.loops[..|s.loops| - 1], s.loops[|s.loops| - 1];
        var v := s.vars[f.counter] + f.step;
        && t.vars == s.vars[f.counter := v] && t.calls == s.calls && !t.stop
        && if (f.step > 0 && v <= f.limit) || (f.step < 0 && v >= f.limit) then t.loops == s.loops && t.pc == f.at + 1
           else t.loops == outer && t.pc == s.pc + 1
  {
  }

  // ----- loops written with IF and GOTO -----

  /** A sequence of straight statements and loops that are left, or gone back in, on a condition. */
  datatype Flow =
    | Halt
    | Act(stmt: Stmt, rest: Flow)
    | While(exit: Tree, body: Flow, rest: Flow)
    | Until(body: Flow, again: Tree, rest: Flow)

  predicate Simple(p: Flow) {
    match p
    case Halt => true
    case Act(stmt, rest) => Straight(stmt) && Simple(rest)
    case While(_, body, rest) => Simple(body) && Simple(rest)
    case Until(body, _, rest) => Simple(body) && Simple(rest)
  }

  /** How many lines it takes. */
  function Size(p: Flow): nat {
    match p
    case Halt => 0
    case Act(_, rest) => 1 + Size(rest)
    case While(_, body, rest) => 2 + Size(body) + Size(rest)
    case Until(body, _, rest) => 1 + Size(body) + Size(rest)
  }

  /**
   The lines from `a` on. A while is IF exit THEN GOTO the line behind it, its body, and GOTO its first line; an until
   is its body and IF again THEN GOTO its first line.
   */
  ghost predicate Laid(code: seq<Line>, a: nat, p: Flow)
    decreases p
  {
    match p
    case Halt => a <= |code|
    case Act(stmt, rest) => a < |code| && code[a].stmt == stmt && Laid(code, a + 1, rest)
    case While(exit, body, rest) =>
      var e := a + 2 + Size(body);
      && e < |code| && code[a].stmt == If(exit, Goto(code[e].number)) && Laid(code, a + 1, body)
      && code[e - 1].stmt == Goto(code[a].number) && Laid(code, e, rest)
    case Until(body, again, rest) =>
      var e := a + 1 + Size(body);
      && e <= |code| && Laid(code, a, body) && code[e - 1].stmt == If(again, Goto(code[a].number))
      && Laid(code, e, rest)
  }

  /** The meaning; None when some loop would go round more often than `fuel` times. */
  function Meant(p: Flow, vars: Vars, fuel: nat): Option<Vars>
    requires Simple(p)
    decreases fuel, p
  {
    match p
    case Halt => Some(vars)
    case Act(stmt, rest) => Meant(rest, Effect(stmt, vars), fuel)
    case While(exit, body, rest) =>
      if Holds(exit, vars) then Meant(rest, vars, fuel)
      else if fuel == 0 then None
      else (match Meant(body, vars, fuel) case None => None case Some(w) => Meant(p, w, fuel - 1))
    case Until(body, again, rest) =>
      match Meant(body, vars, fuel)
      case None => None
      case Some(w) =>
        if !Holds(again, w) then Meant(rest, w, fuel) else if fuel == 0 then None else Meant(p, w, fuel - 1)
  }

  lemma FindAscending(code: seq<Line>, i: nat)
    requires Ascending(code) && i < |code|
    ensures Find(code, code[i].number) == Some(i)
  {
    FindFirst(code, code[i].number, i);
  }

  /** A conditional jump between lines of a program in order. */
  lemma JumpStep(code: seq<Line>, s: State, cond: Tree, c: nat)
    requires Ascending(code) && Running(code, s) && c < |code| && code[s.pc].stmt == If(cond, Goto(code[c].number))
    ensures Step(code, s) == s.(pc := if Holds(cond, s.vars) then c else s.pc + 1)
  {
    hide Ascending;
    FindAscending(code, c);
    assert Exec(code, Goto(code[c].number), s) == s.(pc := c - 1);
  }

  lemma BackStep(code: seq<Line>, s: State, c: nat)
    requires Ascending(code) && Running(code, s) && c < |code| && code[s.pc].stmt == Goto(code[c].number)
    ensures Step(code, s) == s.(pc := c)
  {
    hide Ascending;
    FindAscending(code, c);
  }

  lemma ActStep(code: seq<Line>, s: State, stmt: Stmt)
    requires Running(code, s) && code[s.pc].stmt == stmt && Straight(stmt)
    ensures Step(code, s) == s.(vars := Effect(stmt, s.vars), pc := s.pc + 1)
  {
    StraightStep(code, stmt, s);
  }

  /** The machine stays within the lines for `n` rounds, and is then at their end as `end` says, if it says so. */
  ghost predicate Follows(code: seq<Line>, s: State, n: nat, end: Option<Vars>, fuel: nat, lo: int, hi: int) {
    match end
    case Some(w) => Reaches(code, s, n, s.(vars := w, pc := hi), lo, hi)
    case None => n >= fuel && Reaches(code, s, n, Steps(code, s, n), lo, hi)
  }

  lemma OneReach(code: seq<Line>, s: State, lo: int, hi: int)
    requires Running(code, s) && lo <= s.pc < hi
    ensures Reaches(code, s, 1, Step(code, s), lo, hi)
  {
    hide Reaches, Step;
    ReachNone(code, Step(code, s), lo, hi);
    ReachFirst(code, s, 0, Step(code, s), lo, hi);
  }

  /** The machine in the same place of its stacks. */
  predicate Beside(s: State, t: State) { s.loops == t.loops && s.calls == t.calls && s.stop == t.stop }

  lemma FollowsAfter(code: seq<Line>, s: State, m: nat, u: State, n: nat, end: Option<Vars>, fuel: nat, fuel': nat,
                     lo: int, hi: int)
    requires Reaches(code, s, m, u, lo, hi) && Follows(code, u, n, end, fuel', lo, hi)
    requires Beside(s, u) && fuel <= m + fuel'
    ensures Follows(code, s, m + n, end, fuel, lo, hi)
  {
    hide Reaches, Steps;
    match end {
      case Some(w) => ReachAdd(code, s, m, u, n, u.(vars := w, pc := hi), lo, hi);
      case None =>
        StepsAdd(code, s, m, n);
        ReachEnd(code, s, m, u, lo, hi);
        ReachAdd(code, s, m, u, n, Steps(code, u, n), lo, hi);
    }
  }

  lemma ReachEnd(code: seq<Line>, s: State, n: nat, t: State, lo: int, hi: int)
    requires Reaches(code, s, n, t, lo, hi)
    ensures Steps(code, s, n) == t
  {
  }

  lemma FollowsWider(code: seq<Line>, s: State, n: nat, fuel: nat, lo: int, hi: int, lo': int, hi': int)
    requires Follows(code, s, n, None, fuel, lo, hi) && lo' <= lo && hi <= hi'
    ensures Follows(code, s, n, None, fuel, lo', hi')
  {
    hide Reaches, Steps;
    ReachWider(code, s, n, Steps(code, s, n), lo, hi, lo', hi');
  }

  /** What comes last: only its lower bound widens. */
  lemma FollowsLower(code: seq<Line>, s: State, n: nat, end: Option<Vars>, fuel: nat, lo: int, hi: int, lo': int)
    requires Follows(code, s, n, end, fuel, lo, hi) && lo' <= lo
    ensures Follows(code, s, n, end, fuel, lo', hi)
  {
    hide Reaches, Steps;
    match end {
      case Some(w) => ReachWider(code, s, n, s.(vars := w, pc := hi), lo, hi, lo', hi);
      case None => ReachWider(code, s, n, Steps(code, s, n), lo, hi, lo', hi);
    }
  }

  /** Some part of the body or of the loop, and what then happens. */
  lemma {:induction false} FlowFollows(code: seq<Line>, a: nat, p: Flow, s: State, fuel: nat) returns (n: nat)
    requires Ascending(code) && Simple(p) && Laid(code, a, p) && s.pc == a && !s.stop
    ensures Follows(code, s, n, Meant(p, s.vars, fuel), fuel, a, a + Size(p))
    decreases fuel, p, 1
  {
    hide Ascending, Steps, Step, Exec, Effect, Holds, Follows;
    match p {
      case Halt =>
        StaysPut(code, s, s.vars, fuel, a);
        n := 0;
      case Act(stmt, rest) =>
        ActStep(code, s, stmt);
        var u := Step(code, s);
        n := FlowFollows(code, a + 1, rest, u, fuel);
        FollowsLower(code, u, n, Meant(p, s.vars, fuel), fuel, a + 1, a + Size(p), a);
        OneReach(code, s, a, a + Size(p));
        FollowsAfter(code, s, 1, u, n, Meant(p, s.vars, fuel), fuel, fuel, a, a + Size(p));
        n := 1 + n;
      case While(_, _, _) => n := WhileFollows(code, a, p, s, fuel);
      case Until(_, _, _) => n := UntilFollows(code, a, p, s, fuel);
    }
  }

  lemma StaysPut(code: seq<Line>, s: State, vars: Vars, fuel: nat, a: nat)
    requires s.pc == a && s.vars == vars
    ensures Follows(code, s, 0, Some(vars), fuel, a, a)
  {
    ReachNone(code, s, a, a);
  }

  lemma OutOfFuel(code: seq<Line>, s: State, lo: int, hi: int)
    ensures Follows(code, s, 0, None, 0, lo, hi)
  {
    ReachNone(code, s, lo, hi);
  }

  lemma FollowsReaches(code: seq<Line>, s: State, n: nat, w: Vars, fuel: nat, lo: int, hi: int, lo': int, hi': int)
    requires Follows(code, s, n, Some(w), fuel, lo, hi) && lo' <= lo && hi <= hi'
    ensures Reaches(code, s, n, s.(vars := w, pc := hi), lo', hi')
  {
    ReachWider(code, s, n, s.(vars := w, pc := hi), lo, hi, lo', hi');
  }

  lemma {:induction false} WhileFollows(code: seq<Line>, a: nat, p: Flow, s: State, fuel: nat) returns (n: nat)
    requires Ascending(code) && p.While? && Simple(p) && Laid(code, a, p) && s.pc == a && !s.stop
    ensures Follows(code, s, n, Meant(p, s.vars, fuel), fuel, a, a + Size(p))
    decreases fuel, p, 0
  {
    hide Ascending, Steps, Step, Exec, Effect, Holds, Follows, Reaches;
    var e, hi, end := a + 2 + Size(p.body), a + Size(p), Meant(p, s.vars, fuel);
    JumpStep(code, s, p.exit, e);
    OneReach(code, s, a, hi);
    var u := Step(code, s);
    if Holds(p.exit, s.vars) {
      n := FlowFollows(code, e, p.rest, u, fuel);
      FollowsLower(code, u, n, end, fuel, e, hi, a);
      FollowsAfter(code, s, 1, u, n, end, fuel, fuel, a, hi);
      n := 1 + n;
    } else if fuel == 0 {
      OutOfFuel(code, s, a, hi);
      n := 0;
    } else {
      var m := FlowFollows(code, a + 1, p.body, u, fuel);
      if Meant(p.body, s.vars, fuel).None? {
        FollowsWider(code, u, m, fuel, a + 1, e - 1, a, hi);
        FollowsAfter(code, s, 1, u, m, None, fuel, fuel, a, hi);
        n := 1 + m;
      } else {
        var w := Meant(p.body, s.vars, fuel).value;
        FollowsReaches(code, u, m, w, fuel, a + 1, e - 1, a, hi);
        var v := u.(vars := w, pc := e - 1);
        ReachAdd(code, s, 1, u, m, v, a, hi);
        BackStep(code, v, a);
        OneReach(code, v, a, hi);
        ReachAdd(code, s, 1 + m, v, 1, Step(code, v), a, hi);
        var k := FlowFollows(code, a, p, Step(code, v), fuel - 1);
        FollowsAfter(code, s, 2 + m, Step(code, v), k, end, fuel, fuel - 1, a, hi);
        n := 2 + m + k;
      }
    }
  }

  lemma {:induction false} UntilFollows(code: seq<Line>, a: nat, p: Flow, s: State, fuel: nat) returns (n: nat)
    requires Ascending(code) && p.Until? && Simple(p) && Laid(code, a, p) && s.pc == a && !s.stop
    ensures Follows(code, s, n, Meant(p, s.vars, fuel), fuel, a, a + Size(p))
    decreases fuel, p, 0
  {
    hide Ascending, Steps, Step, Exec, Effect, Holds, Follows, Reaches;
    var e, hi, end := a + 1 + Size(p.body), a + Size(p), Meant(p, s.vars, fuel);
    var m := FlowFollows(code, a, p.body, s, fuel);
    if Meant(p.body, s.vars, fuel).None? {
      FollowsWider(code, s, m, fuel, a, e - 1, a, hi);
      n := m;
    } else {
      var w := Meant(p.body, s.vars, fuel).value;
      FollowsReaches(code, s, m, w, fuel, a, e - 1, a, hi);
      var v := s.(vars := w, pc := e - 1);
      if Holds(p.again, w) && fuel == 0 {
        OutOfFuel(code, s, a, hi);
        n := 0;
      } else {
        JumpStep(code, v, p.again, a);
        OneReach(code, v, a, hi);
        ReachAdd(code, s, m, v, 1, Step(code, v), a, hi);
        var u := Step(code, v);
        if Holds(p.again, w) {
          var k := FlowFollows(code, a, p, u, fuel - 1);
          FollowsAfter(code, s, m + 1, u, k, end, fuel, fuel - 1, a, hi);
          n := m + 1 + k;
        } else {
          var k := FlowFollows(code, e, p.rest, u, fuel);
          FollowsLower(code, u, k, end, fuel, e, hi, a);
          FollowsAfter(code, s, m + 1, u, k, end, fuel, fuel, a, hi);
          n := m + 1 + k;
        }
      }
    }
  }

  // ----- whole programs -----

  /**
   A program of IF and GOTO loops before an END does what its structured form means: it ends, with those variables,
   if some number of rounds suffices for its loops.
   */
  lemma RunsFlow(code: seq<Line>, p: Flow, vars: Vars, fuel: nat) returns (n: nat)
    requires Ascending(code) && Simple(p) && Laid(code, 0, p) && Size(p) < |code| && code[Size(p)].stmt == End
    requires Meant(p, vars, fuel).Some?
    ensures forall ticks :: ticks >= n ==>
      Steps(code, Start(vars), ticks) == State(Meant(p, vars, fuel).value, [], [], Size(p) + 1, true)
  {
    hide Ascending, Laid, Meant;
    var s, w := Start(vars), Meant(p, vars, fuel).value;
    var m := FlowFollows(code, 0, p, s, fuel);
    var t := s.(vars := w, pc := Size(p));
    n := m + 1;
    forall ticks: nat | ticks >= n
      ensures Steps(code, s, ticks) == State(w, [], [], Size(p) + 1, true)
    {
      StepsAdd(code, s, m, ticks - m);
      EndMeans(code, t, ticks - m);
    }
  }

  /** And otherwise it never ends, nor ever leaves the lines of its loops. */
  lemma RunsForever(code: seq<Line>, p: Flow, vars: Vars)
    requires Ascending(code) && Simple(p) && Laid(code, 0, p) && Size(p) < |code| && code[Size(p)].stmt == End
    requires forall fuel: nat :: Meant(p, vars, fuel).None?
    ensures forall ticks: nat :: 0 <= Steps(code, Start(vars), ticks).pc < Size(p)
  {
    hide Ascending, Laid, Meant, Steps;
    forall ticks: nat ensures 0 <= Steps(code, Start(vars), ticks).pc < Size(p) {
      var n := FlowFollows(code, 0, p, Start(vars), ticks + 1);
    }
  }
}
