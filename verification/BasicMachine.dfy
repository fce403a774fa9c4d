/** The BASIC interpreter: numbered lines, and a program counter with a stack of loops. */
module BasicMachine {
  import opened Basics
  import opened ExprGrammar

  const STACK_MAX: nat := 16

  type Var = i: nat | i < 26 witness 0

  type Vars = s: seq<int> | |s| == 26 witness seq(26, _ => 0)

  /** The statements, once their text is read; REM, PRINT and everything else without effect here is Other. */
  datatype Stmt =
    | Let(target: Var, expr: Tree)
    | If(cond: Tree, action: Stmt)
    | For(counter: Var, start: Tree, limit: Tree, step: Tree)
    | Next(named: Option<Var>)
    | Goto(number: int)
    | Gosub(number: int)
    | Return
    | End
    | Other

  datatype Line = Line(number: int, stmt: Stmt)

  /** One active loop; `at` is the position of its FOR. */
  datatype Frame = Frame(counter: Var, limit: int, step: int, at: nat)

  datatype State = State(vars: Vars, loops: seq<Frame>, calls: seq<nat>, pc: int, stop: bool)

  /** A name stands for the variable of its first letter, in either case. */
  function Lookup(vars: Vars, name: string): int {
    if name == "" then 0
    else if 'A' <= name[0] <= 'Z' then vars[name[0] as int - 'A' as int]
    else if 'a' <= name[0] <= 'z' then vars[name[0] as int - 'a' as int]
    else 0
  }

  function Evaluate(t: Tree, vars: Vars): Option<int> {
    Value(t, name => Lookup(vars, name))
  }

  // ----- lines -----

  /** Position of the first line with this number. */
  function Find(code: seq<Line>, number: int): (r: Option<nat>)
    ensures r.Some? ==> r.value < |code| && code[r.value].number == number
    ensures r.None? ==> forall i :: 0 <= i < |code| ==> code[i].number != number
  {
    if code == [] then None
    else if code[0].number == number then Some(0)
    else match Find(code[1..], number) case None => None case Some(i) => Some(i + 1)
  }

  lemma {:induction false} FindFirst(code: seq<Line>, number: int, i: nat)
    requires i < |code| && code[i].number == number && forall j :: 0 <= j < i ==> code[j].number != number
    ensures Find(code, number) == Some(i)
  {
    if i > 0 {
      FindFirst(code[1..], number, i - 1);
    }
  }

  ghost predicate Ascending(code: seq<Line>) {
    forall i, j :: 0 <= i < j < |code| ==> code[i].number < code[j].number
  }

  /** What is stored under a line number. */
  function Stored(code: seq<Line>, number: int): Option<Stmt> {
    match Find(code, number)
    case None => None
    case Some(i) => Some(code[i].stmt)
  }

  lemma StoredAt(code: seq<Line>, i: nat)
    requires Ascending(code) && i < |code|
    ensures Stored(code, code[i].number) == Some(code[i].stmt)
  {
    FindFirst(code, code[i].number, i);
  }

  /** Every line of `code` other than `number` is a line of `more`, and there are no others. */
  lemma StoredSame(code: seq<Line>, more: seq<Line>, number: int, n: int)
    requires Ascending(code) && Ascending(more) && n != number
    requires forall i :: 0 <= i < |code| && code[i].number != number ==> code[i] in more
    requires forall i :: 0 <= i < |more| && more[i].number != number ==> more[i] in code
    ensures Stored(more, n) == Stored(code, n)
  {
    match Find(code, n) {
      case Some(i) =>
        var j :| 0 <= j < |more| && more[j] == code[i];
        StoredAt(more, j);
      case None =>
        forall i | 0 <= i < |more| ensures more[i].number != n {
          assert more[i].number != number ==> more[i] in code;
        }
    }
  }

  // ----- one statement -----

  /** The end of the loop whose FOR lies before `i`: NEXTs are matched with FORs by counting. */
  function MatchingNext(code: seq<Line>, i: nat, depth: nat): (r: Option<nat>)
    requires i <= |code| && depth > 0
    ensures r.Some? ==> i <= r.value < |code|
    decreases |code| - i
  {
    if i == |code| then None
    else if code[i].stmt.For? then MatchingNext(code, i + 1, depth + 1)
    else if code[i].stmt.Next? then
      if depth == 1 then Some(i) else MatchingNext(code, i + 1, depth - 1)
    else MatchingNext(code, i + 1, depth)
  }

  /** No iteration at all. */
  predicate ZeroTrip(start: int, limit: int, step: int) {
    (step > 0 && start > limit) || (step < 0 && start < limit)
  }

  /** NEXT loops back while the counter has not passed the limit. */
  predicate LoopsBack(value: int, limit: int, step: int) {
    (step > 0 && value <= limit) || (step < 0 && value >= limit)
  }

  function JumpTo(code: seq<Line>, number: int, s: State): (t: State)
    ensures s.pc >= -1 ==> t.pc >= -1
  {
    match Find(code, number)
    case None => s
    case Some(i) => s.(pc := i - 1)
  }

  function ExecFor(code: seq<Line>, f: Stmt, s: State): State
    requires f.For? && 0 <= s.pc < |code|
  {
    var a, b, c := Evaluate(f.start, s.vars), Evaluate(f.limit, s.vars), Evaluate(f.step, s.vars);
    if a.None? || b.None? || c.None? || c.value == 0 then s
    else
      var t := s.(vars := s.vars[f.counter := a.value]);
      if ZeroTrip(a.value, b.value, c.value) then
        match MatchingNext(code, s.pc + 1, 1)
        case None => t
        case Some(i) => t.(pc := i)
      else if |s.loops| >= STACK_MAX then t
      else t.(loops := s.loops + [Frame(f.counter, b.value, c.value, s.pc)])
  }

  function ExecNext(named: Option<Var>, s: State): State {
    if s.loops == [] then s
    else
      var f := s.loops[|s.loops| - 1];
      if named.Some? && named.value != f.counter then s
      else
        var t := s.(vars := s.vars[f.counter := s.vars[f.counter] + f.step]);
        if LoopsBack(t.vars[f.counter], f.limit, f.step) then t.(pc := f.at)
        else t.(loops := s.loops[..|s.loops| - 1])
  }

  /** The effect of a statement at `s.pc`; the run loop then adds one to the program counter. */
  function Exec(code: seq<Line>, stmt: Stmt, s: State): (t: State)
    requires 0 <= s.pc < |code|
    ensures t.pc >= -1
  {
    match stmt
    case Let(target, expr) =>
      (match Evaluate(expr, s.vars)
       case None => s
       case Some(v) => s.(vars := s.vars[target := v]))
    case If(cond, action) =>
      (match Evaluate(cond, s.vars)
       case None => s
       case Some(v) => if v != 0 then Exec(code, action, s) else s)
    case For(_, _, _, _) => ExecFor(code, stmt, s)
    case Next(named) => ExecNext(named, s)
    case Goto(number) => JumpTo(code, number, s)
    case Gosub(number) =>
      if Find(code, number).None? || |s.calls| >= STACK_MAX then s
      else JumpTo(code, number, s.(calls := s.calls + [s.pc]))
    case Return =>
      if s.calls == [] then s
      else s.(pc := s.calls[|s.calls| - 1], calls := s.calls[..|s.calls| - 1])
    case End => s.(stop := true)
    case Other => s
  }

  predicate Running(code: seq<Line>, s: State) {
    0 <= s.pc < |code| && !s.stop
  }

  /** One round of the run loop. */
  function Step(code: seq<Line>, s: State): State
    requires Running(code, s)
  {
    var t := Exec(code, code[s.pc].stmt, s);
    t.(pc := t.pc + 1)
  }

  /** At most `n` rounds. */
  function Steps(code: seq<Line>, s: State, n: nat): State
    decreases n
  {
    if n == 0 || !Running(code, s) then s else Steps(code, Step(code, s), n - 1)
  }

  function Start(vars: Vars): State { State(vars, [], [], 0, false) }

  lemma {:induction false} StepsAdd(code: seq<Line>, s: State, m: nat, n: nat)
    ensures Steps(code, Steps(code, s, m), n) == Steps(code, s, m + n)
    decreases m
  {
    if m > 0 && Running(code, s) {
      StepsAdd(code, Step(code, s), m - 1, n);
    }
  }

  // ----- the interpreter's memory -----

  class Interpreter {
    const lines: array<Line>     // g_basic_program; the first `count` entries are in use
    var count: nat
    const vars: array<int>
    const loops: array<Frame>
    var loopTop: nat
    const calls: array<nat>
    var callTop: nat
    var stop: bool

    ghost function Arrays(): set<object> { {lines as object, vars, loops, calls} }

    ghost predicate Valid()
      reads this, lines
    {
      && vars.Length == 26 && loops.Length == STACK_MAX && calls.Length == STACK_MAX
      && this !in Arrays()
      && count <= lines.Length && loopTop <= STACK_MAX && callTop <= STACK_MAX
      && Ascending(lines[..count])
    }

    /** An empty program; how many lines it may have depends on the board. */
    constructor (lineMax: nat)
      ensures Valid() && count == 0 && fresh(Arrays()) && lines.Length == lineMax
      ensures vars[..] == seq(26, _ => 0) && loopTop == 0 && callTop == 0 && !stop
    {
      lines := new Line[lineMax](_ => Line(0, Other));
      vars := new int[26](_ => 0);
      loops := new Frame[STACK_MAX](_ => Frame(0, 0, 0, 0));
      calls := new nat[STACK_MAX](_ => 0);
      count, loopTop, callTop, stop := 0, 0, 0, false;
    }

    ghost function Code(): seq<Line>
      reads this, lines
      requires count <= lines.Length
    {
      lines[..count]
    }

    /** The memory as a state, with the program counter, which the run loop keeps in a local variable. */
    ghost function View(pc: int): State
      reads this, Arrays()
      requires Valid()
    {
      State(vars[..], loops[..loopTop], calls[..callTop], pc, stop)
    }

    // ----- editing -----

    /** Moves the lines from `from` on one place down. */
    method Remove(from: nat)
      requires Valid() && from < count
      modifies lines, this`count
      ensures Valid() && Code() == old(Code())[..from] + old(Code())[from + 1..]
    {
      ghost var was := lines[..count];
      for i := from to count - 1
        invariant count == |was| && lines[..from] == was[..from]
        invariant forall k :: from <= k < i ==> lines[k] == was[k + 1]
        invariant forall k :: i <= k < count ==> lines[k] == was[k]
      {
        lines[i] := lines[i + 1];
      }
      count := count - 1;
      ghost var shorter := was[..from] + was[from + 1..];
      forall k | 0 <= k < count ensures lines[k] == shorter[k] {
        assert k < from ==> lines[..from][k] == was[..from][k];
      }
      assert lines[..count] == shorter;
    }

    /** Moves the lines from `at` on one place up and puts a new line there. */
    method Insert(at: nat, line: Line)
      requires Valid() && at <= count < lines.Length
      requires forall i :: 0 <= i < count ==> if i < at then lines[i].number < line.number
        else line.number < lines[i].number
      modifies lines, this`count
      ensures Valid() && Code() == old(Code())[..at] + [line] + old(Code())[at..]
    {
      ghost var was := lines[..count];
      var i := count;
      while i > at
        invariant count == |was| && at <= i <= count
        invariant forall k :: 0 <= k < i ==> lines[k] == was[k]
        invariant forall k :: i < k <= count ==> lines[k] == was[k - 1]
      {
        lines[i] := lines[i - 1];
        i := i - 1;
      }
      lines[at] := line;
      count := count + 1;
      ghost var longer := was[..at] + [line] + was[at..];
      forall k | 0 <= k < count ensures lines[k] == longer[k] {
        assert longer[k] == if k < at then was[k] else if k == at then line else was[k - 1];
      }
      assert lines[..count] == longer;
      InsertedOrder(was, at, line);
    }

    /** The first position whose line number is not smaller. */
    method Position(number: int) returns (pos: nat)
      requires Valid()
      ensures pos <= count
      ensures forall i :: 0 <= i < count ==> if i < pos then lines[i].number < number else lines[i].number >= number
    {
      pos := 0;
      while pos < count && lines[pos].number < number
        invariant pos <= count && forall i :: 0 <= i < pos ==> lines[i].number < number
      {
        pos := pos + 1;
      }
    }

    /**
     Enters a line: replaces, adds or (with an empty text) deletes it. The program stays sorted, and
     every other line stays; only a new line for a full program is refused.
     */
    method StoreLine(number: int, text: Option<Stmt>)
      requires Valid()
      modifies lines, this`count
      ensures Valid()
      ensures forall n :: n != number ==> Stored(Code(), n) == Stored(old(Code()), n)
      ensures Stored(Code(), number) ==
        if text.Some? && old(count) == lines.Length && Stored(old(Code()), number).None? then None else text
    {
      ghost var code := Code();
      var pos := Position(number);
      assert forall i :: 0 <= i < count ==> lines[i] == code[i];
      if pos < count && lines[pos].number == number {
        StoredAt(code, pos);
        if text.None? {
          Remove(pos);
          RemovedLine(code, pos);
        } else {
          lines[pos] := Line(number, text.value);
          ReplacedLine(code, pos, text.value);
          assert Code() == code[pos := Line(number, text.value)];
        }
        return;
      }
      if text.None? || count >= lines.Length {
        return;
      }
      Insert(pos, Line(number, text.value));
      InsertedLine(code, pos, Line(number, text.value));
    }

    /** The position of a line, or -1. */
    method FindLine(number: int) returns (i: int)
      requires Valid()
      ensures i == match Find(Code(), number) case None => -1 case Some(k) => k
    {
      for k := 0 to count
        invariant forall j :: 0 <= j < k ==> lines[j].number != number
      {
        if lines[k].number == number {
          FindFirst(Code(), number, k);
          return k;
        }
      }
      i := -1;
    }

    // ----- running -----

    /** Looks for the NEXT that belongs to the FOR before `from`, counting FORs and NEXTs on the way. */
    method SkipLoop(from: nat) returns (i: Option<nat>)
      requires Valid() && from <= count
      ensures i == MatchingNext(Code(), from, 1)
    {
      var depth := 1;
      for k := from to count
        invariant depth > 0 && MatchingNext(Code(), from, 1) == MatchingNext(Code(), k, depth)
      {
        if lines[k].stmt.For? {
          depth := depth + 1;
        } else if lines[k].stmt.Next? {
          depth := depth - 1;
          if depth == 0 {
            return Some(k);
          }
        }
      }
      i := None;
    }

    method ExecuteFor(stmt: Stmt, pc: int) returns (next: int)
      requires Valid() && 0 <= pc < count && stmt.For?
      modifies vars, loops, this`loopTop
      ensures Valid() && View(next) == ExecFor(Code(), stmt, old(View(pc)))
    {
      var start := Evaluate(stmt.start, vars[..]);
      var limit := Evaluate(stmt.limit, vars[..]);
      var step := Evaluate(stmt.step, vars[..]);
      if start.None? || limit.None? || step.None? || step.value == 0 {
        return pc;
      }
      vars[stmt.counter] := start.value;
      assert vars[..] == old(vars[..])[stmt.counter := start.value];
      if ZeroTrip(start.value, limit.value, step.value) {
        var i := SkipLoop(pc + 1);
        return if i.Some? then i.value else pc;
      }
      if loopTop >= STACK_MAX {
        return pc;
      }
      loops[loopTop] := Frame(stmt.counter, limit.value, step.value, pc);
      loopTop := loopTop + 1;
      assert loops[..loopTop] == old(loops[..loopTop]) + [Frame(stmt.counter, limit.value, step.value, pc)];
      next := pc;
    }

    method ExecuteNext(named: Option<Var>, pc: int) returns (next: int)
      requires Valid()
      modifies vars, this`loopTop
      ensures Valid() && View(next) == ExecNext(named, old(View(pc)))
    {
      if loopTop == 0 {
        return pc;
      }
      var loop := loops[loopTop - 1];
      if named.Some? && named.value != loop.counter {
        return pc;
      }
      vars[loop.counter] := vars[loop.counter] + loop.step;
      assert vars[..] == old(vars[..])[loop.counter := old(vars[..])[loop.counter] + loop.step];
      var cur := vars[loop.counter];
      if LoopsBack(cur, loop.limit, loop.step) {
        next := loop.at;
      } else {
        loopTop := loopTop - 1;
        assert loops[..loopTop] == old(loops[..loopTop])[..loopTop];
        next := pc;
      }
    }

    /** Executes one statement; `next` is the program counter before the run loop's increment. */
    method Execute(stmt: Stmt, pc: int) returns (next: int)
      requires Valid() && 0 <= pc < count
      modifies vars, loops, calls, this`loopTop, this`callTop, this`stop
      ensures Valid() && View(next) == Exec(Code(), stmt, old(View(pc)))
    {
      next := pc;
      match stmt {
        case Let(target, expr) =>
          var v := Evaluate(expr, vars[..]);
          if v.Some? {
            vars[target] := v.value;
            assert vars[..] == old(vars[..])[target := v.value];
          }
        case If(cond, action) =>
          var v := Evaluate(cond, vars[..]);
          if v.Some? && v.value != 0 {
            next := Execute(action, pc);
          }
        case For(_, _, _, _) =>
          next := ExecuteFor(stmt, pc);
        case Next(named) =>
          next := ExecuteNext(named, pc);
        case Goto(number) =>
          var i := FindLine(number);
          if i >= 0 {
            next := i - 1;
          }
        case Gosub(number) =>
          var i := FindLine(number);
          if i >= 0 && callTop < STACK_MAX {
            calls[callTop] := pc;
            callTop := callTop + 1;
            assert calls[..callTop] == old(calls[..callTop]) + [pc];
            next := i - 1;
          }
        case Return =>
          if callTop > 0 {
            callTop := callTop - 1;
            assert calls[..callTop] == old(calls[..callTop])[..callTop];
            next := calls[callTop];
          }
        case End =>
          stop := true;
        case Other =>
      }
    }

    /** Runs the program until it ends, or until the user breaks in after `ticks` statements. */
    method Run(ticks: nat) returns (pc: int)
      requires Valid()
      modifies vars, loops, calls, this`loopTop, this`callTop, this`stop
      ensures Valid() && View(pc) == Steps(Code(), Start(old(vars[..])), ticks)
    {
      hide Exec, Evaluate;
      stop, loopTop, callTop := false, 0, 0;
      pc := 0;
      ghost var first := View(pc);
      assert first == Start(old(vars[..]));
      var t := ticks;
      while t > 0 && pc < count && !stop
        invariant Valid() && t >= 0 && pc >= 0
        invariant Steps(Code(), View(pc), t) == Steps(Code(), first, ticks)
        decreases t
      {
        pc := Execute(lines[pc].stmt, pc);
        pc := pc + 1;
        t := t - 1;
      }
    }
  }

  lemma RemovedOrder(code: seq<Line>, pos: nat)
    requires Ascending(code) && pos < |code|
    ensures Ascending(code[..pos] + code[pos + 1..])
  {
  }

  lemma RemovedMembers(code: seq<Line>, pos: nat)
    requires Ascending(code) && pos < |code|
    ensures var rest := code[..pos] + code[pos + 1..];
      && (forall i :: 0 <= i < |code| && code[i].number != code[pos].number ==> code[i] in rest)
      && forall i :: 0 <= i < |rest| ==> rest[i] in code && rest[i].number != code[pos].number
  {
    var rest := code[..pos] + code[pos + 1..];
    forall i | 0 <= i < |code| && code[i].number != code[pos].number ensures code[i] in rest {
      assert code[i] == rest[if i < pos then i else i - 1];
    }
    forall i | 0 <= i < |rest| ensures rest[i] in code && rest[i].number != code[pos].number {
      assert rest[i] == code[if i < pos then i else i + 1];
    }
  }

  lemma RemovedLine(code: seq<Line>, pos: nat)
    requires Ascending(code) && pos < |code|
    ensures var rest := code[..pos] + code[pos + 1..];
      && Ascending(rest) && Stored(rest, code[pos].number) == None
      && forall n :: n != code[pos].number ==> Stored(rest, n) == Stored(code, n)
  {
    hide Ascending;
    var rest := code[..pos] + code[pos + 1..];
    RemovedOrder(code, pos);
    RemovedMembers(code, pos);
    forall n | n != code[pos].number ensures Stored(rest, n) == Stored(code, n) {
      StoredSame(code, rest, code[pos].number, n);
    }
  }

  lemma ReplacedLine(code: seq<Line>, pos: nat, stmt: Stmt)
    requires Ascending(code) && pos < |code|
    ensures var changed := code[pos := Line(code[pos].number, stmt)];
      && Ascending(changed) && Stored(changed, code[pos].number) == Some(stmt)
      && forall n :: n != code[pos].number ==> Stored(changed, n) == Stored(code, n)
  {
    var changed := code[pos := Line(code[pos].number, stmt)];
    StoredAt(changed, pos);
    forall i | 0 <= i < |code| && code[i].number != code[pos].number ensures code[i] in changed && changed[i] in code {
      assert code[i] == changed[i];
    }
    forall n | n != code[pos].number ensures Stored(changed, n) == Stored(code, n) {
      StoredSame(code, changed, code[pos].number, n);
    }
  }

  lemma InsertedOrder(code: seq<Line>, pos: nat, line: Line)
    requires Ascending(code) && pos <= |code|
    requires forall i :: 0 <= i < |code| ==> if i < pos then code[i].number < line.number
      else line.number < code[i].number
    ensures Ascending(code[..pos] + [line] + code[pos..])
  {
  }

  lemma InsertedMembers(code: seq<Line>, pos: nat, line: Line)
    requires pos <= |code|
    ensures var longer := code[..pos] + [line] + code[pos..];
      && (forall i :: 0 <= i < |code| ==> code[i] in longer)
      && forall i :: 0 <= i < |longer| && longer[i] != line ==> longer[i] in code
  {
    var longer := code[..pos] + [line] + code[pos..];
    forall i | 0 <= i < |code| ensures code[i] in longer {
      assert code[i] == longer[if i < pos then i else i + 1];
    }
    forall i | 0 <= i < |longer| && longer[i] != line ensures longer[i] in code {
      assert longer[i] == code[if i < pos then i else i - 1];
    }
  }

  lemma InsertedLine(code: seq<Line>, pos: nat, line: Line)
    requires Ascending(code) && pos <= |code|
    requires forall i :: 0 <= i < |code| ==> if i < pos then code[i].number < line.number
      else line.number < code[i].number
    ensures var longer := code[..pos] + [line] + code[pos..];
      && Ascending(longer) && Stored(longer, line.number) == Some(line.stmt) && Stored(code, line.number) == None
      && forall n :: n != line.number ==> Stored(longer, n) == Stored(code, n)
  {
    hide Ascending;
    var longer := code[..pos] + [line] + code[pos..];
    InsertedOrder(code, pos, line);
    assert longer[pos] == line;
    StoredAt(longer, pos);
    InsertedMembers(code, pos, line);
    forall n | n != line.number ensures Stored(longer, n) == Stored(code, n) {
      StoredSame(code, longer, line.number, n);
    }
  }
}
