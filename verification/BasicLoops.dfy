/** Nested counting loops as such, and that the interpreter's counter-and-stack machine carries them out. */
module BasicLoops {
  import opened Basics
  import opened ExprGrammar
  import opened BasicMachine

  // ----- structured programs -----

  /** Statements that change at most a variable. */
  predicate Straight(s: Stmt) {
    match s
    case Let(_, _) | Other => true
    case If(_, action) => Straight(action)
    case _ => false
  }

  /** A sequence of straight statements and well-nested loops. */
  datatype Block =
    | Done
    | Do(stmt: Stmt, rest: Block)
    | Loop(counter: Var, start: Tree, limit: Tree, step: Tree, body: Block, named: bool, rest: Block)

  predicate Assigned(s: Stmt, v: Var) {
    match s
    case Let(target, _) => target == v
    case If(_, action) => Assigned(action, v)
    case _ => false
  }

  predicate Assigns(b: Block, v: Var) {
    match b
    case Done => false
    case Do(stmt, rest) => Assigned(stmt, v) || Assigns(rest, v)
    case Loop(counter, _, _, _, body, _, rest) => counter == v || Assigns(body, v) || Assigns(rest, v)
  }

  /** No loop body assigns the variable of the loop. */
  predicate WellNested(b: Block) {
    match b
    case Done => true
    case Do(stmt, rest) => Straight(stmt) && WellNested(rest)
    case Loop(counter, _, _, _, body, _, rest) => !Assigns(body, counter) && WellNested(body) && WellNested(rest)
  }

  function Depth(b: Block): nat {
    match b
    case Done => 0
    case Do(_, rest) => Depth(rest)
    case Loop(_, _, _, _, body, _, rest) =>
      if Depth(rest) > Depth(body) + 1 then Depth(rest) else Depth(body) + 1
  }

  /** The program text: each loop between its FOR and its NEXT. */
  function Flat(b: Block): seq<Stmt> {
    match b
    case Done => []
    case Do(stmt, rest) => [stmt] + Flat(rest)
    case Loop(counter, start, limit, step, body, named, rest) =>
      [For(counter, start, limit, step)] + Flat(body)
      + [Next(if named then Some(counter) else None)] + Flat(rest)
  }

  // ----- their meaning -----

  function Effect(s: Stmt, vars: Vars): Vars
    requires Straight(s)
  {
    match s
    case Let(target, expr) =>
      (match Evaluate(expr, vars) case None => vars case Some(v) => vars[target := v])
    case If(cond, action) =>
      (match Evaluate(cond, vars) case None => vars case Some(v) => if v != 0 then Effect(action, vars) else vars)
    case Other => vars
  }

  /** How often a loop's body runs: once for each value from `value` on that has not passed the limit. */
  function Trips(value: int, limit: int, step: int): nat
    requires step != 0
    decreases if step > 0 then limit - value + 1 else value - limit + 1
  {
    if LoopsBack(value, limit, step) then 1 + Trips(value + step, limit, step) else 0
  }

  /** The meaning of a block; None when some FOR has a step of 0 or an expression without a value. */
  function Meaning(b: Block, vars: Vars): Option<Vars>
    requires WellNested(b)
    decreases b, 0
  {
    match b
    case Done => Some(vars)
    case Do(stmt, rest) => Meaning(rest, Effect(stmt, vars))
    case Loop(counter, start, limit, step, body, _, rest) =>
      var x, y, z := Evaluate(start, vars), Evaluate(limit, vars), Evaluate(step, vars);
      if x.None? || y.None? || z.None? || z.value == 0 then None
      else
        match Repeat(body, counter, z.value, Trips(x.value, y.value, z.value), vars[counter := x.value])
        case None => None
        case Some(after) => Meaning(rest, after)
  }

  /** `n` times the body, each time followed by a step of the counter. */
  function Repeat(body: Block, counter: Var, step: int, n: nat, vars: Vars): Option<Vars>
    requires WellNested(body)
    decreases body, n + 1
  {
    if n == 0 then Some(vars)
    else
      match Meaning(body, vars)
      case None => None
      case Some(w) => Repeat(body, counter, step, n - 1, w[counter := w[counter] + step])
  }

  /** The last trip's value has not passed the limit, and the value after it has. */
  lemma {:induction false} TripsCount(value: int, limit: int, step: int)
    requires step != 0
    ensures var n := Trips(value, limit, step);
      && (step > 0 ==> value + n * step > limit && (n > 0 ==> value + (n - 1) * step <= limit))
      && (step < 0 ==> value + n * step < limit && (n > 0 ==> value + (n - 1) * step >= limit))
    decreases if step > 0 then limit - value + 1 else value - limit + 1
  {
    if LoopsBack(value, limit, step) {
      var n := Trips(value + step, limit, step);
      TripsCount(value + step, limit, step);
      assert value + (n + 1) * step == value + step + n * step;
      if n > 0 {
        assert value + n * step == value + step + (n - 1) * step;
      }
    }
  }

  lemma {:induction false} EffectKeeps(s: Stmt, vars: Vars, v: Var)
    requires Straight(s) && !Assigned(s, v)
    ensures Effect(s, vars)[v] == vars[v]
  {
    match s {
      case If(cond, action) => EffectKeeps(action, vars, v);
      case _ =>
    }
  }

  lemma {:induction false} MeaningKeeps(b: Block, vars: Vars, v: Var)
    requires WellNested(b) && !Assigns(b, v) && Meaning(b, vars).Some?
    ensures Meaning(b, vars).value[v] == vars[v]
    decreases b, 0
  {
    match b {
      case Done =>
      case Do(stmt, rest) =>
        EffectKeeps(stmt, vars, v);
        MeaningKeeps(rest, Effect(stmt, vars), v);
      case Loop(counter, start, limit, step, body, named, rest) =>
        var x, y, z := Evaluate(start, vars).value, Evaluate(limit, vars).value, Evaluate(step, vars).value;
        RepeatKeeps(body, counter, z, Trips(x, y, z), vars[counter := x], v);
        MeaningKeeps(rest, Repeat(body, counter, z, Trips(x, y, z), vars[counter := x]).value, v);
    }
  }

  lemma {:induction false} RepeatKeeps(body: Block, counter: Var, step: int, n: nat, vars: Vars, v: Var)
    requires WellNested(body) && !Assigns(body, v) && counter != v && Repeat(body, counter, step, n, vars).Some?
    ensures Repeat(body, counter, step, n, vars).value[v] == vars[v]
    decreases body, n + 1
  {
    if n > 0 {
      MeaningKeeps(body, vars, v);
      var w := Meaning(body, vars).value;
      RepeatKeeps(body, counter, step, n - 1, w[counter := w[counter] + step], v);
    }
  }

  // ----- the machine on a flat block -----

  /** The block's statements are the lines from `a` on. */
  ghost predicate Loaded(code: seq<Line>, a: nat, stmts: seq<Stmt>) {
    a + |stmts| <= |code| && forall k :: 0 <= k < |stmts| ==> code[a + k].stmt == stmts[k]
  }

  lemma LoadedParts(code: seq<Line>, a: nat, s: seq<Stmt>, t: seq<Stmt>)
    requires Loaded(code, a, s + t)
    ensures Loaded(code, a, s) && Loaded(code, a + |s|, t)
  {
    assert forall k :: 0 <= k < |s| ==> (s + t)[k] == s[k];
    forall k | 0 <= k < |t| ensures code[a + |s| + k].stmt == t[k] {
      assert (s + t)[|s| + k] == t[k];
    }
  }

  lemma FirstLoaded(code: seq<Line>, a: nat, stmt: Stmt, t: seq<Stmt>)
    requires Loaded(code, a, [stmt] + t)
    ensures a < |code| && code[a].stmt == stmt && Loaded(code, a + 1, t)
  {
    LoadedParts(code, a, [stmt], t);
    assert code[a + 0].stmt == ([stmt] + t)[0];
  }

  /** Where a loop's parts lie. */
  lemma LoopLayout(code: seq<Line>, a: nat, b: Block)
    requires b.Loop? && Loaded(code, a, Flat(b))
    ensures var n := a + 1 + |Flat(b.body)|;
      && n < |code| && a + |Flat(b)| == n + 1 + |Flat(b.rest)|
      && code[a].stmt == For(b.counter, b.start, b.limit, b.step)
      && Loaded(code, a + 1, Flat(b.body))
      && code[n].stmt == Next(if b.named then Some(b.counter) else None)
      && Loaded(code, n + 1, Flat(b.rest))
  {
    hide Loaded, Flat;
    var f := For(b.counter, b.start, b.limit, b.step);
    var x := Next(if b.named then Some(b.counter) else None);
    FlatLoop(b);
    FirstLoaded(code, a, f, Flat(b.body) + ([x] + Flat(b.rest)));
    LoadedParts(code, a + 1, Flat(b.body), [x] + Flat(b.rest));
    LoadedBound(code, a + 1 + |Flat(b.body)|, [x] + Flat(b.rest));
    FirstLoaded(code, a + 1 + |Flat(b.body)|, x, Flat(b.rest));
  }

  lemma FlatLoop(b: Block)
    requires b.Loop?
    ensures Flat(b) == [For(b.counter, b.start, b.limit, b.step)]
      + (Flat(b.body) + ([Next(if b.named then Some(b.counter) else None)] + Flat(b.rest)))
  {
  }

  lemma LoadedBound(code: seq<Line>, a: nat, stmts: seq<Stmt>)
    requires Loaded(code, a, stmts)
    ensures a + |stmts| <= |code|
  {
  }

  lemma {:induction false} StraightStep(code: seq<Line>, stmt: Stmt, s: State)
    requires 0 <= s.pc < |code| && Straight(stmt)
    ensures Exec(code, stmt, s) == s.(vars := Effect(stmt, s.vars))
  {
    match stmt {
      case If(cond, action) => StraightStep(code, action, s);
      case _ =>
    }
  }

  /** The counting scan passes over a whole block without noticing. */
  lemma {:induction false} ScanPasses(code: seq<Line>, a: nat, b: Block, depth: nat)
    requires WellNested(b) && Loaded(code, a, Flat(b)) && depth > 0
    ensures MatchingNext(code, a, depth) == MatchingNext(code, a + |Flat(b)|, depth)
    decreases b
  {
    match b {
      case Done =>
      case Do(stmt, rest) =>
        FirstLoaded(code, a, stmt, Flat(rest));
        ScanPasses(code, a + 1, rest, depth);
      case Loop(counter, start, limit, step, body, named, rest) =>
        LoopLayout(code, a, b);
        ScanPasses(code, a + 1, body, depth + 1);
        ScanPasses(code, a + 2 + |Flat(body)|, rest, depth);
    }
  }

  /** After `n` rounds the machine is in state `t`, and until then at lines from `lo` on, before `hi`. */
  ghost predicate Reaches(code: seq<Line>, s: State, n: nat, t: State, lo: int, hi: int) {
    Steps(code, s, n) == t && forall m: nat :: m < n ==> lo <= Steps(code, s, m).pc < hi
  }

  lemma ReachNone(code: seq<Line>, s: State, lo: int, hi: int)
    ensures Reaches(code, s, 0, s, lo, hi)
  {
  }

  lemma ReachFirst(code: seq<Line>, s: State, n: nat, t: State, lo: int, hi: int)
    requires Running(code, s) && lo <= s.pc < hi && Reaches(code, Step(code, s), n, t, lo, hi)
    ensures Reaches(code, s, 1 + n, t, lo, hi)
  {
    hide Step;
    OneStep(code, s, n);
    forall m: nat | m < 1 + n ensures lo <= Steps(code, s, m).pc < hi {
      if m > 0 { OneStep(code, s, m - 1); }
    }
  }

  lemma ReachAdd(code: seq<Line>, s: State, m: nat, u: State, n: nat, t: State, lo: int, hi: int)
    requires Reaches(code, s, m, u, lo, hi) && Reaches(code, u, n, t, lo, hi)
    ensures Reaches(code, s, m + n, t, lo, hi)
  {
    hide Steps;
    StepsAdd(code, s, m, n);
    forall k: nat | k < m + n ensures lo <= Steps(code, s, k).pc < hi {
      if k >= m { StepsAdd(code, s, m, k - m); }
    }
  }

  lemma ReachWider(code: seq<Line>, s: State, n: nat, t: State, lo: int, hi: int, lo': int, hi': int)
    requires Reaches(code, s, n, t, lo, hi) && lo' <= lo && hi <= hi'
    ensures Reaches(code, s, n, t, lo', hi')
  {
    hide Steps;
  }

  lemma OneStep(code: seq<Line>, s: State, n: nat)
    requires Running(code, s)
    ensures Steps(code, s, 1 + n) == Steps(code, Step(code, s), n)
  {
  }

  /** From the start of a block, the machine goes through its lines to its end, with the variables it means. */
  lemma {:induction false} Simulates(code: seq<Line>, a: nat, b: Block, vars: Vars, loops: seq<Frame>, calls: seq<nat>)
    returns (n: nat)
    requires WellNested(b) && Loaded(code, a, Flat(b)) && |loops| + Depth(b) <= STACK_MAX
    requires Meaning(b, vars).Some?
    ensures Reaches(code, State(vars, loops, calls, a, false), n,
                    State(Meaning(b, vars).value, loops, calls, a + |Flat(b)|, false), a, a + |Flat(b)|)
    decreases b, 2
  {
    hide Reaches, Steps, Step, Exec, Repeat, Trips, Loaded, Running;
    var s := State(vars, loops, calls, a, false);
    match b {
      case Done =>
        ReachNone(code, s, a, a);
        n := 0;
      case Do(stmt, rest) =>
        var e := a + 1 + |Flat(rest)|;
        DoStep(code, a, stmt, rest, s);
        var m := Simulates(code, a + 1, rest, Effect(stmt, vars), loops, calls);
        var t := State(Meaning(b, vars).value, loops, calls, e, false);
        ReachWider(code, Step(code, s), m, t, a + 1, e, a, e);
        ReachFirst(code, s, m, t, a, e);
        n := 1 + m;
      case Loop(counter, start, limit, step, body, named, rest) =>
        LoopLayout(code, a, b);
        LoopMeaning(b, vars);
        var after, mid, e := LoopEnd(b, vars), a + 2 + |Flat(body)|, a + |Flat(b)|;
        var m := LoopRuns(code, a, b, vars, loops, calls);
        var k := Simulates(code, mid, rest, after, loops, calls);
        var u, t := State(after, loops, calls, mid, false), State(Meaning(b, vars).value, loops, calls, e, false);
        ReachWider(code, s, m, u, a, mid, a, e);
        ReachWider(code, u, k, t, mid, e, a, e);
        ReachAdd(code, s, m, u, k, t, a, e);
        n := m + k;
    }
  }

  lemma NoStep(code: seq<Line>, s: State)
    ensures Steps(code, s, 0) == s
  {
  }

  lemma DoStep(code: seq<Line>, a: nat, stmt: Stmt, rest: Block, s: State)
    requires Straight(stmt) && Loaded(code, a, [stmt] + Flat(rest)) && s.pc == a && !s.stop
    ensures Loaded(code, a + 1, Flat(rest)) && Running(code, s)
    ensures Step(code, s) == s.(vars := Effect(stmt, s.vars), pc := a + 1)
  {
    FirstLoaded(code, a, stmt, Flat(rest));
    StraightStep(code, stmt, s);
  }

  lemma LoopMeaning(b: Block, vars: Vars)
    requires b.Loop? && WellNested(b) && Meaning(b, vars).Some?
    ensures Meaning(b.rest, LoopEnd(b, vars)) == Meaning(b, vars)
  {
  }

  /** The variables after a loop, before what follows it. */
  function LoopEnd(b: Block, vars: Vars): Vars
    requires b.Loop? && WellNested(b) && Meaning(b, vars).Some?
  {
    var x, y, z := Evaluate(b.start, vars).value, Evaluate(b.limit, vars).value, Evaluate(b.step, vars).value;
    Repeat(b.body, b.counter, z, Trips(x, y, z), vars[b.counter := x]).value
  }

  /** A loop without any trip is skipped by the scan, however full the stack. */
  lemma LoopSkipped(code: seq<Line>, a: nat, b: Block, vars: Vars, loops: seq<Frame>, calls: seq<nat>)
    requires b.Loop? && WellNested(b) && Loaded(code, a, Flat(b)) && Meaning(b, vars).Some?
    requires ZeroTrip(Evaluate(b.start, vars).value, Evaluate(b.limit, vars).value, Evaluate(b.step, vars).value)
    ensures Running(code, State(vars, loops, calls, a, false))
    ensures Step(code, State(vars, loops, calls, a, false))
         == State(LoopEnd(b, vars), loops, calls, a + 2 + |Flat(b.body)|, false)
  {
    LoopLayout(code, a, b);
    ScanPasses(code, a + 1, b.body, 1);
  }

  /** A loop that has a trip and finds a free frame is entered. */
  lemma LoopEntered(code: seq<Line>, a: nat, b: Block, vars: Vars, loops: seq<Frame>, calls: seq<nat>)
    requires b.Loop? && WellNested(b) && Loaded(code, a, Flat(b)) && Meaning(b, vars).Some? && |loops| < STACK_MAX
    requires !ZeroTrip(Evaluate(b.start, vars).value, Evaluate(b.limit, vars).value, Evaluate(b.step, vars).value)
    ensures Running(code, State(vars, loops, calls, a, false))
    ensures var x, y, z := Evaluate(b.start, vars).value, Evaluate(b.limit, vars).value, Evaluate(b.step, vars).value;
      && z != 0 && Trips(x, y, z) > 0
      && Step(code, State(vars, loops, calls, a, false))
         == State(vars[b.counter := x], loops + [Frame(b.counter, y, z, a)], calls, a + 1, false)
  {
    LoopLayout(code, a, b);
    hide Loaded, Flat, WellNested;
  }

  /** From its FOR on: one round, and then rounds within the loop, until it is left. */
  lemma {:induction false} LoopGoes(code: seq<Line>, a: nat, b: Block, vars: Vars, loops: seq<Frame>, calls: seq<nat>)
    returns (n: nat)
    requires b.Loop? && WellNested(b) && Loaded(code, a, Flat(b)) && |loops| + 1 + Depth(b.body) <= STACK_MAX
    requires Meaning(b, vars).Some?
    ensures var s, e := State(vars, loops, calls, a, false), a + 2 + |Flat(b.body)|;
      && Running(code, s)
      && Reaches(code, Step(code, s), n, State(LoopEnd(b, vars), loops, calls, e, false), a + 1, e)
    decreases b, 0
  {
    hide Reaches, Steps, Step, Loaded, Flat, Trips, Depth;
    var x, y, z := Evaluate(b.start, vars).value, Evaluate(b.limit, vars).value, Evaluate(b.step, vars).value;
    var e := a + 2 + |Flat(b.body)|;
    if ZeroTrip(x, y, z) {
      LoopSkipped(code, a, b, vars, loops, calls);
      ReachNone(code, State(LoopEnd(b, vars), loops, calls, e, false), a + 1, e);
      n := 0;
    } else {
      LoopEntered(code, a, b, vars, loops, calls);
      n := Repeats(code, a, b, Frame(b.counter, y, z, a), Trips(x, y, z), vars[b.counter := x], loops, calls);
    }
  }

  /** One whole loop. */
  lemma {:induction false} LoopRuns(code: seq<Line>, a: nat, b: Block, vars: Vars, loops: seq<Frame>, calls: seq<nat>)
    returns (n: nat)
    requires b.Loop? && WellNested(b) && Loaded(code, a, Flat(b)) && |loops| + 1 + Depth(b.body) <= STACK_MAX
    requires Meaning(b, vars).Some?
    ensures var e := a + 2 + |Flat(b.body)|;
      Reaches(code, State(vars, loops, calls, a, false), n, State(LoopEnd(b, vars), loops, calls, e, false), a, e)
    decreases b, 1
  {
    hide Reaches, Steps, Step, Loaded, Flat, LoopEnd, Depth;
    var s, e := State(vars, loops, calls, a, false), a + 2 + |Flat(b.body)|;
    var t := State(LoopEnd(b, vars), loops, calls, e, false);
    var m := LoopGoes(code, a, b, vars, loops, calls);
    ReachWider(code, Step(code, s), m, t, a + 1, e, a, e);
    ReachFirst(code, s, m, t, a, e);
    n := 1 + m;
  }

  /** The remaining trips of an entered loop, from the start of its body. */
  lemma {:induction false} Repeats(code: seq<Line>, a: nat, b: Block, f: Frame, trips: nat, vars: Vars,
                                   loops: seq<Frame>, calls: seq<nat>)
    returns (n: nat)
    requires b.Loop? && WellNested(b) && Loaded(code, a, Flat(b)) && |loops| + 1 + Depth(b.body) <= STACK_MAX
    requires f.counter == b.counter && f.step != 0 && f.at == a
    requires trips == Trips(vars[b.counter], f.limit, f.step) > 0
    requires Repeat(b.body, b.counter, f.step, trips, vars).Some?
    ensures var e := a + 2 + |Flat(b.body)|;
      Reaches(code, State(vars, loops + [f], calls, a + 1, false), n,
              State(Repeat(b.body, b.counter, f.step, trips, vars).value, loops, calls, e, false), a + 1, e)
    decreases b.body, trips + 3
  {
    hide Reaches, Steps, Step, Loaded, Flat, Trips, Depth;
    var s, e := State(vars, loops + [f], calls, a + 1, false), a + 2 + |Flat(b.body)|;
    var w := Meaning(b.body, vars).value;
    var w' := w[b.counter := w[b.counter] + f.step];
    var m := OneTrip(code, a, b, f, vars, loops, calls);
    MeaningKeeps(b.body, vars, b.counter);
    TripsStep(vars[b.counter], f.limit, f.step);
    if trips == 1 {
      n := m;
    } else {
      var k := Repeats(code, a, b, f, trips - 1, w', loops, calls);
      ReachAdd(code, s, m, State(w', loops + [f], calls, a + 1, false), k,
               State(Repeat(b.body, b.counter, f.step, trips, vars).value, loops, calls, e, false), a + 1, e);
      n := m + k;
    }
  }

  lemma TripsStep(value: int, limit: int, step: int)
    requires step != 0 && Trips(value, limit, step) > 0
    ensures Trips(value + step, limit, step) == Trips(value, limit, step) - 1
    ensures LoopsBack(value + step, limit, step) <==> Trips(value, limit, step) > 1
  {
  }

  /** The body once, and the NEXT behind it. */
  lemma {:induction false} OneTrip(code: seq<Line>, a: nat, b: Block, f: Frame, vars: Vars, loops: seq<Frame>,
                                   calls: seq<nat>)
    returns (m: nat)
    requires b.Loop? && WellNested(b) && Loaded(code, a, Flat(b)) && |loops| + 1 + Depth(b.body) <= STACK_MAX
    requires f.counter == b.counter && f.at == a && Meaning(b.body, vars).Some?
    ensures var e, w := a + 2 + |Flat(b.body)|, Meaning(b.body, vars).value;
      var w' := w[b.counter := w[b.counter] + f.step];
      Reaches(code, State(vars, loops + [f], calls, a + 1, false), m,
              if LoopsBack(w'[b.counter], f.limit, f.step) then State(w', loops + [f], calls, a + 1, false)
              else State(w', loops, calls, e, false), a + 1, e)
    decreases b.body, 3
  {
    hide Reaches, Steps, Step, Exec, Loaded, Flat, Depth, Meaning;
    LoopLayout(code, a, b);
    var s, e := State(vars, loops + [f], calls, a + 1, false), a + 2 + |Flat(b.body)|;
    var n := Simulates(code, a + 1, b.body, vars, loops + [f], calls);
    var t := State(Meaning(b.body, vars).value, loops + [f], calls, e - 1, false);
    ReachWider(code, s, n, t, a + 1, e - 1, a + 1, e);
    NextStep(code, t, f, loops, if b.named then Some(b.counter) else None);
    ReachNone(code, Step(code, t), a + 1, e);
    ReachFirst(code, t, 0, Step(code, t), a + 1, e);
    ReachAdd(code, s, n, t, 1, Step(code, t), a + 1, e);
    m := n + 1;
  }

  /** NEXT at the end of the innermost loop's body. */
  lemma NextStep(code: seq<Line>, t: State, f: Frame, loops: seq<Frame>, named: Option<Var>)
    requires Running(code, t) && code[t.pc].stmt == Next(named) && t.loops == loops + [f]
    requires named.Some? ==> named.value == f.counter
    ensures var w := t.vars[f.counter := t.vars[f.counter] + f.step];
      Step(code, t) == if LoopsBack(w[f.counter], f.limit, f.step) then t.(vars := w, pc := f.at + 1)
                       else t.(vars := w, loops := loops, pc := t.pc + 1)
  {
    assert (loops + [f])[..|loops|] == loops;
  }

  /**
   The run loop refines nested loops: a program that is the text of a well-nested block of depth at
   most 16 ends, with the variables that the block means, however many more statements it may run.
   */
  lemma RunsStructured(code: seq<Line>, b: Block, vars: Vars) returns (n: nat)
    requires WellNested(b) && Depth(b) <= STACK_MAX && Meaning(b, vars).Some?
    requires |code| == |Flat(b)| && Loaded(code, 0, Flat(b))
    ensures forall ticks :: ticks >= n ==>
      Steps(code, Start(vars), ticks) == State(Meaning(b, vars).value, [], [], |code|, false)
  {
    n := Simulates(code, 0, b, vars, [], []);
    forall ticks | ticks >= n
      ensures Steps(code, Start(vars), ticks) == State(Meaning(b, vars).value, [], [], |code|, false)
    {
      StepsAdd(code, Start(vars), n, ticks - n);
    }
  }

  // ----- where the stacks matter -----

  lemma GosubStep(code: seq<Line>, s: State, number: int, c: nat)
    requires Running(code, s) && code[s.pc].stmt == Gosub(number) && Find(code, number) == Some(c)
      && |s.calls| < STACK_MAX
    ensures Step(code, s) == s.(calls := s.calls + [s.pc], pc := c)
  {
  }

  lemma ReturnStep(code: seq<Line>, s: State, calls: seq<nat>, at: nat)
    requires Running(code, s) && code[s.pc].stmt == Return && s.calls == calls + [at]
    ensures Step(code, s) == s.(calls := calls, pc := at + 1)
  {
    assert (calls + [at])[..|calls|] == calls;
  }

  /**
   A subroutine whose text is a well-nested block does what the block means, and comes back behind the
   call, from any place of a run that leaves room for its loops and for one more call.
   */
  lemma CallReturns(code: seq<Line>, a: nat, number: int, c: nat, b: Block, vars: Vars, loops: seq<Frame>,
                    calls: seq<nat>)
    returns (n: nat)
    requires a < |code| && code[a].stmt == Gosub(number) && Find(code, number) == Some(c) && |calls| < STACK_MAX
    requires WellNested(b) && |loops| + Depth(b) <= STACK_MAX && Meaning(b, vars).Some?
    requires Loaded(code, c, Flat(b)) && c + |Flat(b)| < |code| && code[c + |Flat(b)|].stmt == Return
    ensures Steps(code, State(vars, loops, calls, a, false), n)
         == State(Meaning(b, vars).value, loops, calls, a + 1, false)
  {
    hide Steps, Step, Exec, Meaning, Flat, Loaded;
    var s := State(vars, loops, calls, a, false);
    GosubStep(code, s, number, c);
    var m := Simulates(code, c, b, vars, loops, calls + [a]);
    OneStep(code, s, m);
    var t := State(Meaning(b, vars).value, loops, calls + [a], c + |Flat(b)|, false);
    ReturnStep(code, t, calls, a);
    OneStep(code, t, 0);
    NoStep(code, Step(code, t));
    StepsAdd(code, s, 1 + m, 1);
    n := 1 + m + 1;
  }

  /** After its last trip a loop's counter has passed the limit. */
  lemma {:induction false} PassesLimit(body: Block, counter: Var, limit: int, step: int, n: nat, vars: Vars)
    requires WellNested(body) && !Assigns(body, counter) && step != 0 && n == Trips(vars[counter], limit, step)
    requires Repeat(body, counter, step, n, vars).Some?
    ensures !LoopsBack(Repeat(body, counter, step, n, vars).value[counter], limit, step)
    decreases n
  {
    if n > 0 {
      var w := Meaning(body, vars).value;
      MeaningKeeps(body, vars, counter);
      PassesLimit(body, counter, limit, step, n - 1, w[counter := w[counter] + step]);
    }
  }

  lemma FullStackFor(code: seq<Line>, s: State, f: Stmt, x: int, y: int, z: int)
    requires Running(code, s) && code[s.pc].stmt == f && f.For? && |s.loops| == STACK_MAX
    requires Evaluate(f.start, s.vars) == Some(x) && Evaluate(f.limit, s.vars) == Some(y)
    requires Evaluate(f.step, s.vars) == Some(z) && z != 0 && !ZeroTrip(x, y, z)
    ensures Step(code, s) == s.(vars := s.vars[f.counter := x], pc := s.pc + 1)
  {
  }

  lemma OtherNext(code: seq<Line>, s: State, v: Var)
    requires Running(code, s) && code[s.pc].stmt == Next(Some(v))
    requires s.loops != [] && s.loops[|s.loops| - 1].counter != v
    ensures Step(code, s) == s.(pc := s.pc + 1)
  {
  }

  /** One round, and then `n` rounds at the lines behind, before `e`, lead to `t`. */
  ghost predicate LeavesAfter(code: seq<Line>, s: State, n: nat, e: nat, t: State) {
    Running(code, s) && Reaches(code, Step(code, s), n, t, s.pc + 1, e)
  }

  /** From its FOR at `s` on, the lines of a loop that ends before `e` are left for the first time in state `t`. */
  ghost predicate LeavesIn(code: seq<Line>, s: State, e: nat, t: State) {
    !(s.pc < t.pc < e) && exists n: nat :: LeavesAfter(code, s, n, e, t)
  }

  /** A statement of a well-nested body whose loop counts in `c`. */
  predicate Mild(stmt: Stmt, c: Var) {
    match stmt
    case For(counter, _, _, _) => counter != c
    case Next(_) => true
    case _ => Straight(stmt) && !Assigned(stmt, c)
  }

  lemma {:induction false} FlatIsMild(b: Block, c: Var, k: nat)
    requires WellNested(b) && !Assigns(b, c) && k < |Flat(b)|
    ensures Mild(Flat(b)[k], c)
  {
    match b {
      case Do(stmt, rest) =>
        if k > 0 { FlatIsMild(rest, c, k - 1); }
      case Loop(_, _, _, _, body, _, rest) =>
        var n := |Flat(body)|;
        if 0 < k <= n { FlatIsMild(body, c, k - 1); }
        if k > n + 1 { FlatIsMild(rest, c, k - n - 2); }
    }
  }

  /** With the stack full below a loop's body, a frame of it is gone, or the counter still has its first value. */
  ghost predicate Stuck(s: State, loops: seq<Frame>, c: Var, x: int, a: nat, e: nat) {
    !(loops <= s.loops) || (s.loops == loops && s.vars[c] == x) || s.pc <= a || s.pc > e
  }

  /** No active loop has its FOR at one of these lines. */
  predicate Outside(loops: seq<Frame>, a: nat, e: nat) {
    forall i :: 0 <= i < |loops| ==> loops[i].at < a || e <= loops[i].at
  }

  lemma {:induction false} StraightKeeps(code: seq<Line>, stmt: Stmt, s: State, c: Var)
    requires 0 <= s.pc < |code| && Straight(stmt) && !Assigned(stmt, c)
    ensures var t := Exec(code, stmt, s); t.loops == s.loops && t.vars[c] == s.vars[c]
  {
    StraightStep(code, stmt, s);
    EffectKeeps(stmt, s.vars, c);
  }

  lemma StuckFor(code: seq<Line>, s: State, loops: seq<Frame>, c: Var, x: int, a: nat, e: nat)
    requires Running(code, s) && a < s.pc < e && Stuck(s, loops, c, x, a, e)
    requires code[s.pc].stmt.For? && code[s.pc].stmt.counter != c && |loops| == STACK_MAX && Outside(loops, a, e)
    ensures Stuck(Step(code, s), loops, c, x, a, e)
  {
    var t := Step(code, s);
    if |t.loops| > |s.loops| {
      PushedPrefix(loops, s.loops, t.loops[|s.loops|]);
    }
  }

  lemma PushedPrefix(loops: seq<Frame>, stack: seq<Frame>, f: Frame)
    ensures loops <= stack + [f] ==> loops <= stack || (|loops| == |stack| + 1 && loops[|stack|] == f)
  {
    if loops <= stack + [f] && |loops| <= |stack| {
      assert loops == (stack + [f])[..|loops|] == stack[..|loops|];
    }
  }

  lemma StuckNext(code: seq<Line>, s: State, loops: seq<Frame>, c: Var, x: int, a: nat, e: nat)
    requires Running(code, s) && a < s.pc < e && Stuck(s, loops, c, x, a, e)
    requires code[s.pc].stmt.Next? && loops != [] && Outside(loops, a, e)
    ensures Stuck(Step(code, s), loops, c, x, a, e)
  {
    var t := Step(code, s);
    if s.loops != [] {
      assert t.loops == s.loops || t.loops == s.loops[..|s.loops| - 1];
    }
  }

  lemma StuckStep(code: seq<Line>, a: nat, b: Block, s: State, loops: seq<Frame>, x: int)
    requires b.Loop? && WellNested(b) && Loaded(code, a, Flat(b)) && |loops| == STACK_MAX
    requires var e := a + 2 + |Flat(b.body)|;
      Running(code, s) && a < s.pc < e && Stuck(s, loops, b.counter, x, a, e) && Outside(loops, a, e)
    ensures Stuck(Step(code, s), loops, b.counter, x, a, a + 2 + |Flat(b.body)|)
  {
    hide Flat, Stuck, Outside, Step, Exec;
    var c, e, stmt := b.counter, a + 2 + |Flat(b.body)|, code[s.pc].stmt;
    LoopLayout(code, a, b);
    if s.pc < e - 1 {
      FlatIsMild(b.body, c, s.pc - a - 1);
      assert stmt == Flat(b.body)[s.pc - a - 1];
    }
    if stmt.For? {
      StuckFor(code, s, loops, c, x, a, e);
    } else if stmt.Next? {
      StuckNext(code, s, loops, c, x, a, e);
    } else {
      StraightKeeps(code, stmt, s, c);
      StuckSame(code, s, loops, c, x, a, e);
    }
  }

  lemma StuckSame(code: seq<Line>, s: State, loops: seq<Frame>, c: Var, x: int, a: nat, e: nat)
    requires Running(code, s) && a < s.pc < e && Stuck(s, loops, c, x, a, e)
    requires var t := Exec(code, code[s.pc].stmt, s); t.loops == s.loops && t.vars[c] == s.vars[c]
    ensures Stuck(Step(code, s), loops, c, x, a, e)
  {
    hide Exec;
  }

  lemma {:induction false} StaysStuck(code: seq<Line>, a: nat, b: Block, s: State, n: nat, t: State,
                                      loops: seq<Frame>, x: int)
    requires b.Loop? && WellNested(b) && Loaded(code, a, Flat(b)) && |loops| == STACK_MAX
    requires var e := a + 2 + |Flat(b.body)|;
      Stuck(s, loops, b.counter, x, a, e) && Outside(loops, a, e) && Reaches(code, s, n, t, a + 1, e)
    ensures Stuck(t, loops, b.counter, x, a, a + 2 + |Flat(b.body)|)
    decreases n
  {
    hide Flat, Stuck, Outside, Step, Loaded;
    NoStep(code, s);
    if n > 0 && Running(code, s) {
      assert Steps(code, s, 0) == s;
      OneStep(code, s, n - 1);
      forall m: nat | m < n - 1 ensures Steps(code, Step(code, s), m) == Steps(code, s, 1 + m) {
        OneStep(code, s, m);
      }
      StuckStep(code, a, b, s, loops, x);
      StaysStuck(code, a, b, Step(code, s), n - 1, t, loops, x);
    }
  }

  lemma NeverAsMeant(code: seq<Line>, a: nat, b: Block, vars: Vars, loops: seq<Frame>, calls: seq<nat>, n: nat)
    requires b.Loop? && WellNested(b) && Loaded(code, a, Flat(b)) && Meaning(b, vars).Some?
    requires Trips(Evaluate(b.start, vars).value, Evaluate(b.limit, vars).value, Evaluate(b.step, vars).value) > 0
    requires |loops| == STACK_MAX && Outside(loops, a, a + 2 + |Flat(b.body)|)
    ensures var s, e := State(vars, loops, calls, a, false), a + 2 + |Flat(b.body)|;
      !LeavesAfter(code, s, n, e, State(LoopEnd(b, vars), loops, calls, e, false))
  {
    LoopLayout(code, a, b);
    var x, y, z := Evaluate(b.start, vars).value, Evaluate(b.limit, vars).value, Evaluate(b.step, vars).value;
    var s, e, t := State(vars, loops, calls, a, false), a + 2 + |Flat(b.body)|,
                   State(LoopEnd(b, vars), loops, calls, a + 2 + |Flat(b.body)|, false);
    FullStackFor(code, s, code[a].stmt, x, y, z);
    PassesLimit(b.body, b.counter, y, z, Trips(x, y, z), vars[b.counter := x]);
    hide Steps, Step, Flat, Loaded, Reaches;
    if Reaches(code, Step(code, s), n, t, a + 1, e) {
      StaysStuck(code, a, b, Step(code, s), n, t, loops, x);
    }
  }

  /**
   Sixteen is the exact bound. Where the loops inside a loop find room if it does, the machine leaves the loop's
   lines as the loop means, its stack and its place included, if and only if there is a free frame for it, or it
   has no trip to make.
   */
  lemma LoopMeansExactlyWhen(code: seq<Line>, a: nat, b: Block, vars: Vars, loops: seq<Frame>, calls: seq<nat>)
    requires b.Loop? && WellNested(b) && Loaded(code, a, Flat(b)) && Meaning(b, vars).Some?
    requires |loops| == STACK_MAX || |loops| + 1 + Depth(b.body) <= STACK_MAX
    requires Outside(loops, a, a + 2 + |Flat(b.body)|)
    ensures var e := a + 2 + |Flat(b.body)|;
      LeavesIn(code, State(vars, loops, calls, a, false), e, State(LoopEnd(b, vars), loops, calls, e, false))
      <==> |loops| < STACK_MAX
           || Trips(Evaluate(b.start, vars).value, Evaluate(b.limit, vars).value, Evaluate(b.step, vars).value) == 0
  {
    hide Steps, Step, Flat, Loaded, Reaches, LoopEnd;
    var x, y, z := Evaluate(b.start, vars).value, Evaluate(b.limit, vars).value, Evaluate(b.step, vars).value;
    var s, e := State(vars, loops, calls, a, false), a + 2 + |Flat(b.body)|;
    var t := State(LoopEnd(b, vars), loops, calls, e, false);
    if |loops| < STACK_MAX {
      var n := LoopGoes(code, a, b, vars, loops, calls);
      assert LeavesAfter(code, s, n, e, t);
    } else if ZeroTrip(x, y, z) {
      LoopSkipped(code, a, b, vars, loops, calls);
      ReachNone(code, t, a + 1, e);
      assert LeavesAfter(code, s, 0, e, t);
    } else {
      forall n: nat ensures !LeavesAfter(code, s, n, e, t) {
        NeverAsMeant(code, a, b, vars, loops, calls, n);
      }
    }
  }

  /**
   With sixteen loops active, a further loop that should run runs its body once, whatever its limit, and ends
   without the counter that the loop means, if its NEXT names it and the sixteenth loop counts in another variable.
   */
  lemma SeventeenthLoopRunsOnce(code: seq<Line>, a: nat, b: Block, vars: Vars, loops: seq<Frame>, calls: seq<nat>)
    returns (n: nat)
    requires b.Loop? && b.named && WellNested(b) && Loaded(code, a, Flat(b)) && Meaning(b, vars).Some?
    requires |loops| == STACK_MAX && loops[STACK_MAX - 1].counter != b.counter && Depth(b.body) == 0
    requires Trips(Evaluate(b.start, vars).value, Evaluate(b.limit, vars).value, Evaluate(b.step, vars).value) > 0
    ensures var entered := vars[b.counter := Evaluate(b.start, vars).value];
      && Meaning(b.body, entered).Some?
      && Steps(code, State(vars, loops, calls, a, false), n)
         == State(Meaning(b.body, entered).value, loops, calls, a + 2 + |Flat(b.body)|, false)
      && Meaning(b.body, entered).value[b.counter] != LoopEnd(b, vars)[b.counter]
  {
    hide Steps, Step, Exec, Flat, Loaded;
    LoopLayout(code, a, b);
    var x, y, z := Evaluate(b.start, vars).value, Evaluate(b.limit, vars).value, Evaluate(b.step, vars).value;
    var s, entered := State(vars, loops, calls, a, false), vars[b.counter := x];
    FullStackFor(code, s, code[a].stmt, x, y, z);
    MeaningKeeps(b.body, entered, b.counter);
    PassesLimit(b.body, b.counter, y, z, Trips(x, y, z), entered);
    var m := Simulates(code, a + 1, b.body, entered, loops, calls);
    OneStep(code, s, m);
    var t := State(Meaning(b.body, entered).value, loops, calls, a + 1 + |Flat(b.body)|, false);
    OtherNext(code, t, b.counter);
    OneStep(code, t, 0);
    NoStep(code, Step(code, t));
    StepsAdd(code, s, 1 + m, 1);
    n := 1 + m + 1;
  }

  lemma FirstTripMeans(b: Block, vars: Vars)
    requires b.Loop? && WellNested(b) && Meaning(b, vars).Some?
    ensures var x, y, z := Evaluate(b.start, vars), Evaluate(b.limit, vars), Evaluate(b.step, vars);
      && x.Some? && y.Some? && z.Some? && z.value != 0
      && (Trips(x.value, y.value, z.value) > 0 ==>
            Meaning(b.body, vars[b.counter := x.value]).Some? && !ZeroTrip(x.value, y.value, z.value))
  {
  }

  /** Otherwise its NEXT steps the sixteenth loop instead, and goes back there or ends that one. */
  lemma SeventeenthLoopStepsSixteenth(code: seq<Line>, a: nat, b: Block, vars: Vars, loops: seq<Frame>, f: Frame,
                                      calls: seq<nat>)
    returns (n: nat)
    requires b.Loop? && WellNested(b) && Loaded(code, a, Flat(b)) && Meaning(b, vars).Some?
    requires |loops| + 1 == STACK_MAX && (b.named ==> f.counter == b.counter) && Depth(b.body) == 0
    requires Trips(Evaluate(b.start, vars).value, Evaluate(b.limit, vars).value, Evaluate(b.step, vars).value) > 0
    ensures var entered := vars[b.counter := Evaluate(b.start, vars).value];
      && Meaning(b.body, entered).Some?
      && var w := Meaning(b.body, entered).value;
      var w' := w[f.counter := w[f.counter] + f.step];
      Steps(code, State(vars, loops + [f], calls, a, false), n)
      == if LoopsBack(w'[f.counter], f.limit, f.step) then State(w', loops + [f], calls, f.at + 1, false)
         else State(w', loops, calls, a + 2 + |Flat(b.body)|, false)
  {
    hide Steps, Step, Exec, Flat, Loaded, Meaning, Depth;
    var full := loops + [f];
    LoopLayout(code, a, b);
    FirstTripMeans(b, vars);
    var x, y, z := Evaluate(b.start, vars).value, Evaluate(b.limit, vars).value, Evaluate(b.step, vars).value;
    var s, entered := State(vars, full, calls, a, false), vars[b.counter := x];
    FullStackFor(code, s, code[a].stmt, x, y, z);
    var m := Simulates(code, a + 1, b.body, entered, full, calls);
    OneStep(code, s, m);
    var t := State(Meaning(b.body, entered).value, full, calls, a + 1 + |Flat(b.body)|, false);
    NextStep(code, t, f, loops, if b.named then Some(b.counter) else None);
    OneStep(code, t, 0);
    NoStep(code, Step(code, t));
    StepsAdd(code, s, 1 + m, 1);
    n := 1 + m + 1;
  }
}
