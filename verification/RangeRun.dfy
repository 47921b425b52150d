/** How often the compiled code of a `for` loop over a range runs the body. */
module RangeRun {
  import opened Values
  import opened Bytecode
  import opened Ast
  import opened Semantics
  import opened CodeGen
  import opened Machine
  import opened ExprCorrect
  import opened StmtCorrect
  import opened RangeLoop

  // ----- visits -----

  /** The configurations in which the machine comes by `at` within `n` steps, in order. */
  function Visits(m: Vm, n: nat, c: Conf, at: int): seq<Conf> {
    if n == 0 || !c.Running? then []
    else (if c.pc == at then [c] else []) + Visits(m, n - 1, m.Step(c), at)
  }

  lemma {:induction false} VisitsAdd(m: Vm, i: nat, j: nat, c: Conf, at: int)
    ensures Visits(m, i + j, c, at) == Visits(m, i, c, at) + Visits(m, j, m.Run(i, c), at)
  {
    hide Vm.Step;
    if i > 0 && c.Running? {
      VisitsAdd(m, i - 1, j, m.Step(c), at);
    }
  }

  /** A run of `n` steps from `c` to `d` with these visits. */
  predicate Runs(m: Vm, n: nat, c: Conf, d: Conf, at: int, visits: seq<Conf>) {
    m.Run(n, c) == d && Visits(m, n, c, at) == visits
  }

  lemma RunsTrans(m: Vm, i: nat, c: Conf, d: Conf, j: nat, e: Conf, at: int, u: seq<Conf>, v: seq<Conf>, w: seq<Conf>)
    requires Runs(m, i, c, d, at, u) && Runs(m, j, d, e, at, v) && w == u + v
    ensures Runs(m, i + j, c, e, at, w)
  {
    hide Vm.Run, Visits;
    m.RunAdd(i, j, c);
    VisitsAdd(m, i, j, c, at);
  }

  /** A single strict step. */
  lemma RunsOne(m: Vm, c: Conf, d: Conf, at: int)
    requires c.Running? && m.Strict(1, c) == d && d.Running?
    ensures Runs(m, 1, c, d, at, if c.pc == at then [c] else [])
  {
    hide Vm.Step, Vm.Clean;
    m.StrictIsRun(1, c);
    assert Visits(m, 0, m.Step(c), at) == [];
  }

  // ----- stretches of code -----

  /** No instruction: the machine stops there. */
  const STOP: byte := 255

  /** The chunk in which only the stretch from `a` to `b` is left. */
  function Alone(m: Vm, a: nat, b: nat): Vm
    requires a <= b <= |m.code|
  {
    m.(code := seq(a, _ => STOP) + m.code[a..b])
  }

  lemma AloneAt(m: Vm, a: nat, b: nat, pc: int, g: seq<byte>)
    requires a <= b <= |m.code| && a <= pc && pc + |g| <= b && At(m.code, pc, g)
    ensures At(Alone(m, a, b).code, pc, g)
  {
    assert Alone(m, a, b).code[pc..pc + |g|] == m.code[pc..pc + |g|];
  }

  /** A running step of the stretch alone is one of the whole chunk, from within it. */
  lemma AloneStep(m: Vm, a: nat, b: nat, c: Conf)
    requires a <= b <= |m.code| && c.Running? && Alone(m, a, b).StrictStep(c).Running?
    ensures a <= c.pc < b && m.Step(c) == Alone(m, a, b).StrictStep(c)
  {
    hide ApplyBinary, ApplyUnary, CallNative, BinaryOf, Short;
    var m' := Alone(m, a, b);
    assert m'.Clean(c) && m'.Step(c).Running?;
    assert 0 <= c.pc < b && c.pc + OperandBytes(m'.code[c.pc]) < b;
    if c.pc < a {
      assert m'.code[c.pc] == STOP;
      StopStops(m', c);
    } else {
      AloneByte(m, a, b, c.pc);
      SameStep(m, m', b, c);
    }
  }

  lemma AloneByte(m: Vm, a: nat, b: nat, pc: nat)
    requires a <= pc < b <= |m.code|
    ensures forall i :: pc <= i < b ==> Alone(m, a, b).code[i] == m.code[i]
  {
  }

  lemma StopStops(m: Vm, c: Conf)
    requires c.Running? && 0 <= c.pc < |m.code| && m.code[c.pc] == STOP
    ensures !m.Step(c).Running?
  {
    hide ApplyBinary, ApplyUnary, CallNative, BinaryOf, Short;
  }

  lemma SameStep(m: Vm, m': Vm, b: nat, c: Conf)
    requires c.Running? && 0 <= c.pc < b <= |m.code| && |m'.code| == b && c.pc + OperandBytes(m'.code[c.pc]) < b
    requires m.prims == m'.prims && m.constants == m'.constants
    requires forall i :: c.pc <= i < b ==> m'.code[i] == m.code[i]
    ensures m.Step(c) == m'.Step(c)
  {
    hide ApplyBinary, ApplyUnary, CallNative, BinaryOf, Short, Vm.Exec1, Vm.Exec2, Vm.Exec0;
    SameExec(m, m');
  }

  lemma SameExec(m: Vm, m': Vm)
    requires m.prims == m'.prims && m.constants == m'.constants
    ensures forall op: byte, c: Conf | c.Running? :: m.Exec0(op, c) == m'.Exec0(op, c)
    ensures forall op: byte, k: byte, c: Conf | c.Running? && OperandBytes(op) == 1 ::
      m.Exec1(op, k, c) == m'.Exec1(op, k, c)
    ensures forall op: byte, offset: nat, c: Conf | c.Running? && OperandBytes(op) == 2 ::
      m.Exec2(op, offset, c) == m'.Exec2(op, offset, c)
  {
  }

  lemma StillRunning(m: Vm, n: nat, c: Conf)
    requires m.Strict(n, c).Running?
    ensures c.Running?
  {
  }

  /** A strict run of the stretch alone is a run of the whole chunk that does not leave
      the stretch in between. */
  lemma {:induction false} AloneRuns(m: Vm, a: nat, b: nat, n: nat, c: Conf, at: int)
    requires a <= b <= |m.code| && !(a <= at < b) && Alone(m, a, b).Strict(n, c).Running?
    ensures Runs(m, n, c, Alone(m, a, b).Strict(n, c), at, [])
  {
    hide Vm.Step, Vm.StrictStep;
    var m' := Alone(m, a, b);
    if n > 0 {
      assert c.Running?;
      var d := m'.StrictStep(c);
      assert m'.Strict(n, c) == m'.Strict(n - 1, d);
      StillRunning(m', n - 1, d);
      AloneStep(m, a, b, c);
      AloneRuns(m, a, b, n - 1, d, at);
    }
  }

  // ----- the loop -----

  /** The machine comes by the pop behind the test once for each of these states, with
      the result of the test on top. */
  predicate Enters(visits: seq<Conf>, rounds: seq<State>, at: int) {
    && |visits| == |rounds|
    && forall i :: 0 <= i < |rounds| ==> Enter(visits[i], rounds[i], at)
  }

  predicate Enter(c: Conf, st: State, at: int) {
    && c.Running? && c.pc == at && c.globals == st.globals && c.out == st.out
    && |c.stack| == |st.vals| + 1 && c.stack[..|st.vals|] == st.vals
  }

  lemma EntersCons(c: Conf, visits: seq<Conf>, st: State, rounds: seq<State>, at: int)
    requires Enter(c, st, at) && Enters(visits, rounds, at)
    ensures Enters([c] + visits, [st] + rounds, at)
  {
    hide Enter;
  }

  /** What the loop's lemmas ask of machine, code and state. */
  predicate InLoop(m: Vm, s: Stmt, depth: nat, cs: Static, pc: int, st: State) {
    && LoopBody(s, depth) && (m.tolerant || BalancedList(s.body.stmts))
    && |m.code| <= 0xffff && Matches(cs, st, []) && Within(cs.locals, depth)
    && 0 < |cs.locals| <= MAX_LOCALS
    && Placed(m, pc, GenForLoop(s.end, s.body, |cs.locals| - 1, depth, cs))
  }

  /** The stretches of the loop's code, and the place of the pop behind its test. */
  function LoopPieces(s: Stmt, depth: nat, cs: Static): Pieces
    requires s.For? && s.body.Block? && 0 < |cs.locals| <= MAX_LOCALS
  {
    PiecesOf(s, |cs.locals| - 1, depth, cs)
  }

  function EntryOf(s: Stmt, depth: nat, cs: Static, pc: int): int
    requires s.For? && s.body.Block? && 0 < |cs.locals| <= MAX_LOCALS
  {
    pc + |LoopPieces(s, depth, cs).test| + 3
  }

  /** The evaluation of the end and the comparison. */
  lemma TestRuns(m: Vm, s: Stmt, depth: nat, cs: Static, pc: int, st: State, at: int) returns (n: nat)
    requires InLoop(m, s, depth, cs, pc, st) && Room(st, 1 + Need(s.end))
    requires Eval(m.prims, s.end, st).EVal? && at >= pc + |LoopPieces(s, depth, cs).test|
    requires ApplyBinary(m.prims, Less, st.vals[|cs.locals| - 1], Eval(m.prims, s.end, st).v).Val?
    ensures
      var r := Eval(m.prims, s.end, st);
      var v := ApplyBinary(m.prims, Less, st.vals[|cs.locals| - 1], r.v).v;
      Runs(m, n, Config(pc, [], st, []), Config(pc + |LoopPieces(s, depth, cs).test|, [], r.st, [v]), at, [])
  {
    hide Vm.Strict, Eval, GenExpr, Need, SupportedExpr, ApplyBinary, Runs, LoopBody, GenForLoop, Room;
    var k: byte := |cs.locals| - 1;
    LoopBodyFacts(s, depth);
    LoopLayout(m, s, k, depth, cs, pc);
    var p := LoopPieces(s, depth, cs);
    var to := pc + |p.test|;
    var m' := Alone(m, pc, to);
    AloneAt(m, pc, to, pc, p.test);
    n := SimLoopTest(m', s, k, cs, pc, st);
    AloneRuns(m, pc, to, n, Config(pc, [], st, []), at);
  }

  /** The branch: into the round by way of the pop at `at`, or out of the loop. */
  lemma BranchRuns(m: Vm, at: int, skip: nat, st: State, v: Value)
    requires At(m.code, at - 3, Forward(OP_JUMP_IF_FALSE, skip)) && 0 < skip <= 0xffff
    requires At(m.code, at, [OP_POP]) && At(m.code, at + skip, [OP_POP]) && |st.vals| < STACK_MAX
    ensures Falsy(v) ==> Runs(m, 2, Config(at - 3, [], st, [v]), Config(at + skip + 1, [], st, []), at, [])
    ensures !Falsy(v) ==>
      Runs(m, 2, Config(at - 3, [], st, [v]), Config(at + 1, [], st, []), at, [Config(at, [], st, [v])])
  {
    hide Vm.Strict, Runs, Forward, Falsy;
    var c := Config(at - 3, [], st, [v]);
    var to := if Falsy(v) then at + skip else at;
    var d := Config(to, [], st, [v]);
    SimBranch(m, at - 3, skip, [], st, v);
    RunsOne(m, c, d, at);
    SimPop(m, to, [], st, v);
    RunsOne(m, d, Config(to + 1, [], st, []), at);
    var visits := if to == at then [d] else [];
    RunsTrans(m, 1, c, d, 1, Config(to + 1, [], st, []), at, [], visits, visits);
  }

  /** The body, on its own. */
  lemma BodyRuns(m: Vm, s: Stmt, depth: nat, cs: Static, pc: int, st: State, fuel: nat) returns (n: nat)
    requires InLoop(m, s, depth, cs, pc, st) && ExecList(m.prims, s.body.stmts, depth, st, fuel).Next?
    ensures
      var p, o := LoopPieces(s, depth, cs), ExecList(m.prims, s.body.stmts, depth, st, fuel).st;
      && Matches(cs, o, [])
      && Runs(m, n, Config(pc + p.Body(), [], st, []), Config(pc + p.Next(), [], o, []), EntryOf(s, depth, cs, pc), [])
  {
    hide Vm.Strict, ExecList, GenStmts, SupportedList, AlignedList, BalancedList, LeavesAny, Lands, Config, GenExpr,
         GenForLoop, SupportedExpr, LoopBody, Runs, Within, NamesOf;
    var k: byte := |cs.locals| - 1;
    LoopBodyFacts(s, depth);
    LoopLayout(m, s, k, depth, cs, pc);
    var p := LoopPieces(s, depth, cs);
    var from, to := pc + p.Body(), pc + p.Next();
    var m' := Alone(m, from, to);
    AloneAt(m, from, to, from, p.body.code);
    var left;
    n, left := SimList(m', s.body.stmts, depth, false, true, p.end.s, from, st, [], fuel);
    var c, o := Config(from, [], st, []), ExecList(m.prims, s.body.stmts, depth, st, fuel);
    NextMatches(m', n, c, o, fuel, to, p.body.s, left);
    LandsConfig(m', n, c, o, fuel, to, p.body.s, left);
    assert Config(to, [], o.st, []).Running? by { ConfigRuns(to, [], o.st, []); }
    AloneRuns(m, from, to, n, c, EntryOf(s, depth, cs, pc));
  }

  /** The increment and the jump back. */
  lemma CountRuns(m: Vm, s: Stmt, depth: nat, cs: Static, pc: int, st: State, w: Value) returns (n: nat)
    requires InLoop(m, s, depth, cs, pc, st) && ApplyBinary(m.prims, Add, st.vals[|cs.locals| - 1], Int(1)) == Val(w)
    ensures
      var p, next := LoopPieces(s, depth, cs), st.(vals := st.vals[|cs.locals| - 1 := w]);
      Runs(m, n, Config(pc + p.Next(), [], st, []), Config(pc, [], next, []), EntryOf(s, depth, cs, pc), [])
  {
    hide Vm.Strict, GenStmts, GenExpr, GenForLoop, LoopBody, Runs, Within, NamesOf, Increment, ApplyBinary, Backward;
    var k: byte := |cs.locals| - 1;
    LoopBodyFacts(s, depth);
    LoopLayout(m, s, k, depth, cs, pc);
    var p, at := LoopPieces(s, depth, cs), EntryOf(s, depth, cs, pc);
    var from, to := pc + p.Next(), pc + p.Next() + 8;
    var c, next := Config(from, [], st, []), st.(vals := st.vals[k := w]);
    AloneAt(m, from, to, from, p.next.code);
    n := SimIncrement(Alone(m, from, to), k, p.body.s, from, st);
    AloneRuns(m, from, to, n, c, at);
    SimJumpBack(m, to, p.Back(), [], next);
    RunsOne(m, Config(to, [], next, []), Config(pc, [], next, []), at);
    RunsTrans(m, n, c, Config(to, [], next, []), 1, Config(pc, [], next, []), at, [], [], []);
    n := n + 1;
  }

  /** A round of a loop that ends normally: what the test gives, and where it leads. */
  lemma RoundOf(P: Prims, s: Stmt, k: nat, depth: nat, st: State, fuel: nat)
    requires s.For? && Supported(s) && WellFormed(st) && ForLoop(P, s, k, depth, st, fuel).Next?
    ensures fuel > 0 && k < |st.vals| && Room(st, 1 + Need(s.end)) && Eval(P, s.end, st).EVal?
    ensures
      var r := Eval(P, s.end, st);
      var test := ApplyBinary(P, Less, st.vals[k], r.v);
      && test.Val?
      && (Falsy(test.v) ==> ForLoop(P, s, k, depth, st, fuel) == Next(r.st) && Rounds(P, s, k, depth, st, fuel) == [])
      && (!Falsy(test.v) ==>
            var o := ExecList(P, s.body.stmts, depth, r.st, fuel);
            && o.Next? && k < |o.st.vals| && ApplyBinary(P, Add, o.st.vals[k], Int(1)).Val?
            && var next := o.st.(vals := o.st.vals[k := ApplyBinary(P, Add, o.st.vals[k], Int(1)).v]);
            && ForLoop(P, s, k, depth, st, fuel) == ForLoop(P, s, k, depth, next, fuel - 1)
            && Rounds(P, s, k, depth, st, fuel) == [r.st] + Rounds(P, s, k, depth, next, fuel - 1))
  {
    hide Eval, ApplyBinary, ExecList, Room;
  }

  /** The compiled loop, from a test to its end, goes exactly through the rounds of its meaning. */
  lemma {:induction false} LoopRuns(m: Vm, s: Stmt, depth: nat, cs: Static, pc: int, st: State, fuel: nat)
    returns (n: nat, visits: seq<Conf>)
    requires InLoop(m, s, depth, cs, pc, st) && ForLoop(m.prims, s, |cs.locals| - 1, depth, st, fuel).Next?
    ensures
      var k, at := |cs.locals| - 1, EntryOf(s, depth, cs, pc);
      var end := ForLoop(m.prims, s, k, depth, st, fuel).st;
      && Matches(cs, end, [])
      && Runs(m, n, Config(pc, [], st, []), Config(pc + |GenForLoop(s.end, s.body, k, depth, cs).code|, [], end, []),
        at, visits)
      && Enters(visits, Rounds(m.prims, s, k, depth, st, fuel), at)
    decreases fuel
  {
    hide Vm.Strict, Eval, ExecList, ForLoop, Rounds, GenExpr, GenForLoop, LoopBody, Runs, Enters, Enter, ApplyBinary,
         InLoop, Config, Matches, Room, Need;
    InLoopFacts(m, s, depth, cs, pc, st);
    var k, at, r := |cs.locals| - 1, EntryOf(s, depth, cs, pc), Eval(m.prims, s.end, st);
    var p := LoopPieces(s, depth, cs);
    RoundOf(m.prims, s, k, depth, st, fuel);
    var v := ApplyBinary(m.prims, Less, st.vals[k], r.v).v;
    var c, d := Config(pc, [], st, []), Config(pc + |p.test|, [], r.st, [v]);
    n := TestRuns(m, s, depth, cs, pc, st, at);
    BranchRuns(m, at, p.Skip(), r.st, v);
    if Falsy(v) {
      visits := [];
      RunsTrans(m, n, c, d, 2, Config(at + p.Skip() + 1, [], r.st, []), at, [], [], []);
      n := n + 2;
      EntersNone(at);
      InLoopAgain(m, s, depth, cs, pc, st, r.st);
    } else {
      var o := ExecList(m.prims, s.body.stmts, depth, r.st, fuel).st;
      var w := ApplyBinary(m.prims, Add, o.vals[k], Int(1)).v;
      var next := o.(vals := o.vals[k := w]);
      var n1 := RoundRuns(m, s, depth, cs, pc, st, r.st, fuel, w);
      var n2, rest := LoopRuns(m, s, depth, cs, pc, next, fuel - 1);
      var enter := Config(at, [], r.st, [v]);
      var end := Config(pc + |GenForLoop(s.end, s.body, k, depth, cs).code|, [],
        ForLoop(m.prims, s, k, depth, st, fuel).st, []);
      visits := [enter] + rest;
      RunsTrans(m, n, c, d, 2, Config(at + 1, [], r.st, []), at, [], [enter], [enter]);
      RunsTrans(m, n + 2, c, Config(at + 1, [], r.st, []), n1, Config(pc, [], next, []), at, [enter], [], [enter]);
      RunsTrans(m, n + 2 + n1, c, Config(pc, [], next, []), n2, end, at, [enter], rest, visits);
      n := n + 2 + n1 + n2;
      EnterConfig(at, r.st, v);
      EntersCons(enter, rest, r.st, Rounds(m.prims, s, k, depth, next, fuel - 1), at);
    }
  }

  lemma EntersNone(at: int)
    ensures Enters([], [], at)
  {
  }

  lemma EnterConfig(at: int, st: State, v: Value)
    ensures Enter(Config(at, [], st, [v]), st, at)
  {
    assert [] + st.vals + [v] == st.vals + [v];
  }

  lemma InLoopFacts(m: Vm, s: Stmt, depth: nat, cs: Static, pc: int, st: State)
    requires InLoop(m, s, depth, cs, pc, st)
    ensures s.For? && Supported(s) && s.body.Block? && SupportedList(s.body.stmts) && SupportedExpr(s.end) &&
      WellFormed(st)
    ensures 0 < |cs.locals| <= MAX_LOCALS && |st.vals| == |cs.locals| && |st.vals| < STACK_MAX
    ensures
      var p, at, end := LoopPieces(s, depth, cs), EntryOf(s, depth, cs, pc),
        |GenForLoop(s.end, s.body, |cs.locals| - 1, depth, cs).code|;
      && 0 < p.Skip() <= 0xffff && at == pc + |p.test| + 3 && at + 1 == pc + p.Body() && at + p.Skip() + 1 == pc + end
      && At(m.code, at - 3, Forward(OP_JUMP_IF_FALSE, p.Skip())) && At(m.code, at, [OP_POP]) &&
        At(m.code, at + p.Skip(), [OP_POP])
  {
    hide LoopBody, GenForLoop, Forward, GenExpr, GenStmts;
    LoopBodyFacts(s, depth);
    LoopLayout(m, s, |cs.locals| - 1, depth, cs, pc);
  }

  lemma InLoopAgain(m: Vm, s: Stmt, depth: nat, cs: Static, pc: int, st: State, st': State)
    requires InLoop(m, s, depth, cs, pc, st) && WellFormed(st') && SameShape(st, st')
    ensures InLoop(m, s, depth, cs, pc, st') && Matches(cs, st', [])
  {
    hide LoopBody, GenForLoop, NamesOf;
  }

  /** Body, increment and jump back, after a test in `st` that left `st1`. */
  lemma RoundRuns(m: Vm, s: Stmt, depth: nat, cs: Static, pc: int, st: State, st1: State, fuel: nat, w: Value)
      returns (n: nat)
    requires InLoop(m, s, depth, cs, pc, st) && WellFormed(st1) && SameShape(st, st1)
    requires ExecList(m.prims, s.body.stmts, depth, st1, fuel).Next?
    requires |ExecList(m.prims, s.body.stmts, depth, st1, fuel).st.vals| >= |cs.locals|
    requires ApplyBinary(m.prims, Add, ExecList(m.prims, s.body.stmts, depth, st1, fuel).st.vals[|cs.locals| - 1],
      Int(1)) == Val(w)
    ensures
      var o, at := ExecList(m.prims, s.body.stmts, depth, st1, fuel).st, EntryOf(s, depth, cs, pc);
      var next := o.(vals := o.vals[|cs.locals| - 1 := w]);
      && InLoop(m, s, depth, cs, pc, next)
      && Runs(m, n, Config(at + 1, [], st1, []), Config(pc, [], next, []), at, [])
  {
    hide Vm.Strict, ExecList, GenExpr, GenForLoop, LoopBody, Runs, ApplyBinary, Config, NamesOf, Within, Placed,
         SupportedList;
    InLoopFacts(m, s, depth, cs, pc, st);
    var at, p := EntryOf(s, depth, cs, pc), LoopPieces(s, depth, cs);
    var o := ExecList(m.prims, s.body.stmts, depth, st1, fuel).st;
    var next := o.(vals := o.vals[|cs.locals| - 1 := w]);
    InLoopAgain(m, s, depth, cs, pc, st, st1);
    n := BodyRuns(m, s, depth, cs, pc, st1, fuel);
    var n1 := CountRuns(m, s, depth, cs, pc, o, w);
    RunsTrans(m, n, Config(at + 1, [], st1, []), Config(pc + p.Next(), [], o, []), n1, Config(pc, [], next, []), at,
      [], [], []);
    n := n + n1;
  }

  // ----- the statement -----

  /** What a `for` statement's lemmas ask of machine, code and state. */
  predicate AtFor(m: Vm, s: Stmt, depth: nat, scoped: bool, cs: Static, pc: int, st: State) {
    && s.For? && Supported(s) && Aligned(s, depth, false, scoped) && (m.tolerant || Balanced(s))
    && Ready(m, depth, false, scoped, cs, st, []) && Placed(m, pc, GenStmt(s, depth, cs))
  }

  /** The compiler's state behind the start value, with the loop variable's slot. */
  function LoopStatic(s: Stmt, depth: nat, cs: Static): Static
    requires s.For?
  {
    AddLocal(GenExpr(s.start, cs).s, s.name, depth + 1).1
  }

  /** Where the loop starts, and where its rounds do. */
  function LoopStart(s: Stmt, cs: Static, pc: int): int
    requires s.For?
  {
    pc + |GenExpr(s.start, cs).code|
  }

  function RoundStart(s: Stmt, depth: nat, cs: Static, pc: int): int
    requires s.For? && s.body.Block?
  {
    var l := LoopStatic(s, depth, cs);
    if 0 < |l.locals| <= MAX_LOCALS then EntryOf(s, depth + 1, l, LoopStart(s, cs, pc)) else pc
  }

  lemma ForLayout(m: Vm, s: Stmt, depth: nat, scoped: bool, cs: Static, pc: int, st: State, start: EResult)
    requires AtFor(m, s, depth, scoped, cs, pc, st)
    requires start.EVal? && WellFormed(start.st) && SameShape(st, start.st)
    ensures
      var l, from := LoopStatic(s, depth, cs), LoopStart(s, cs, pc);
      && |l.locals| == |cs.locals| + 1 && SupportedExpr(s.start) && s.body.Block?
      && InLoop(m, s, depth + 1, l, from, Entered(s, depth, start))
      && At(m.code, pc, GenExpr(s.start, cs).code) && Placed(m, pc, GenExpr(s.start, cs)) && from <= |m.code|
      && var to := from + |GenForLoop(s.end, s.body, |l.locals| - 1, depth + 1, l).code|;
      At(m.code, to, Pops(1)) && pc + |GenStmt(s, depth, cs).code| == to + 1
  {
    hide Exec, ExecList, GenStmt, GenStmts, Supported, Aligned, Balanced, BalancedList, Eval, GenExpr, SupportedExpr,
         GenForLoop, EndScope, LoopBody, ForLoop, NamesOf, Pops;
    ForParts(m.prims, s, depth, false, scoped, cs, st, 0);
    var g := GenExpr(s.start, cs);
    var (slot, l) := AddLocal(g.s, s.name, depth + 1);
    var h := GenForLoop(s.end, s.body, slot, depth + 1, l);
    GenExprStatic(s.start, cs);
    GenForLoopStatic(s.end, s.body, slot, depth + 1, l);
    LoopBodyFacts(s, depth + 1);
    LoopLocals(s, slot, depth + 1, l);
    EndScopeRestores(Emitted(g.code + h.code, h.s), cs.locals, depth);
    AtSplit(m.code, pc, g.code + h.code, Pops(1));
    AtSplit(m.code, pc, g.code, h.code);
    NamesOfPlus(cs.locals, Local(s.name, depth + 1));
  }

  /** The start value, pushed into the variable's slot. */
  lemma StartRuns(m: Vm, s: Stmt, depth: nat, cs: Static, pc: int, st: State, at: int) returns (n: nat)
    requires s.For? && SupportedExpr(s.start) && Matches(cs, st, []) && Room(st, Need(s.start))
    requires Placed(m, pc, GenExpr(s.start, cs)) && at >= LoopStart(s, cs, pc) && Eval(m.prims, s.start, st).EVal?
    ensures Runs(m, n, Config(pc, [], st, []),
      Config(LoopStart(s, cs, pc), [], Entered(s, depth, Eval(m.prims, s.start, st)), []), at, [])
  {
    hide Vm.Strict, Eval, GenExpr, SupportedExpr, Runs, Need, NamesOf;
    var g, start, from := GenExpr(s.start, cs), Eval(m.prims, s.start, st), LoopStart(s, cs, pc);
    var m' := Alone(m, pc, from);
    AloneAt(m, pc, from, pc, g.code);
    n := SimExpr(m', s.start, cs, pc, st, [], []);
    assert [] + start.st.vals + ([] + [start.v]) == [] + (start.st.vals + [start.v]) + [];
    AloneRuns(m, pc, from, n, Config(pc, [], st, []), at);
  }

  /** The pop at the end removes the variable. */
  lemma EndRuns(m: Vm, to: int, st: State, k: nat, at: int)
    requires At(m.code, to, Pops(1)) && WellFormed(st) && |st.vals| == k + 1 <= STACK_MAX && at != to
    ensures Runs(m, 1, Config(to, [], st, []),
      Config(to + 1, [], st.(names := st.names[..k], vals := st.vals[..k]), []), at, [])
  {
    hide Vm.Strict, Runs, Pops;
    SimPops(m, to, 1, [], st);
    RunsOne(m, Config(to, [], st, []), Config(to + 1, [], st.(names := st.names[..k], vals := st.vals[..k]), []), at);
  }

  /** A compiled `for` statement that ends normally goes exactly through the rounds of its meaning. */
  lemma ForRuns(m: Vm, s: Stmt, depth: nat, scoped: bool, cs: Static, pc: int, st: State, fuel: nat)
    returns (n: nat, visits: seq<Conf>)
    requires AtFor(m, s, depth, scoped, cs, pc, st) && Exec(m.prims, s, depth, st, fuel).Next?
    ensures s.body.Block? && SupportedExpr(s.start) && Eval(m.prims, s.start, st).EVal?
    ensures
      var end := Config(pc + |GenStmt(s, depth, cs).code|, [], Exec(m.prims, s, depth, st, fuel).st, []);
      Runs(m, n, Config(pc, [], st, []), end, RoundStart(s, depth, cs, pc), visits)
    ensures
      var rounds := Rounds(m.prims, s, |st.names|, depth + 1, Entered(s, depth, Eval(m.prims, s.start, st)), fuel);
      Enters(visits, rounds, RoundStart(s, depth, cs, pc))
  {
    hide Vm.Strict, Exec, ExecList, GenStmt, GenStmts, Supported, Aligned, Balanced, Eval, GenExpr, SupportedExpr,
         GenForLoop, ForLoop, Runs, Enters, Rounds, Need, NamesOf, LoopBody, Within, Placed, Config, EntryOf, Room, At;
    ForParts(m.prims, s, depth, false, scoped, cs, st, fuel);
    var start := Eval(m.prims, s.start, st);
    ForLayout(m, s, depth, scoped, cs, pc, st, start);
    var l, from, at := LoopStatic(s, depth, cs), LoopStart(s, cs, pc), RoundStart(s, depth, cs, pc);
    var k, entered := |st.names|, Entered(s, depth, start);
    var to := from + |GenForLoop(s.end, s.body, |l.locals| - 1, depth + 1, l).code|;
    InLoopFacts(m, s, depth + 1, l, from, entered);
    n := StartRuns(m, s, depth, cs, pc, st, at);
    var n1;
    n1, visits := LoopRuns(m, s, depth + 1, l, from, entered, fuel);
    var e := ForLoop(m.prims, s, k, depth + 1, entered, fuel).st;
    var c, d, end := Config(pc, [], st, []), Config(from, [], entered, []), Config(to, [], e, []);
    RunsTrans(m, n, c, d, n1, end, at, [], visits, visits);
    MatchesLengths(l, e);
    EndRuns(m, to, e, k, at);
    var last := Config(to + 1, [], e.(names := e.names[..k], vals := e.vals[..k]), []);
    RunsTrans(m, n + n1, c, end, 1, last, at, visits, [], visits);
    n := n + n1 + 1;
  }

  lemma MatchesLengths(l: Static, st: State)
    requires Matches(l, st, [])
    ensures WellFormed(st) && |st.vals| == |l.locals| <= STACK_MAX
  {
  }

  /** The compiled code of a `for` over the integers from `a` to `b`, whose end stays `b`,
      in which no assignment resolves to its variable and which ends normally, starts its body exactly
      max(0, b - a) times, with the numbers from `a` to `b - 1` in the variable's slot in
      order; at its end the slot is gone. */
  lemma MachineCounts(m: Vm, s: Stmt, depth: nat, scoped: bool, cs: Static, pc: int, st: State, fuel: nat, a: int,
      b: int)
    returns (n: nat, visits: seq<Conf>)
    requires AtFor(m, s, depth, scoped, cs, pc, st) && Exec(m.prims, s, depth, st, fuel).Next? && KeepsVariable(s)
    requires SupportedExpr(s.start) && Eval(m.prims, s.start, st).EVal? && Eval(m.prims, s.start, st).v == Int(a)
    requires EndStays(m.prims, s, |st.names|, depth + 1, Entered(s, depth, Eval(m.prims, s.start, st)), fuel, b)
    ensures s.body.Block? && Runs(m, n, Config(pc, [], st, []),
      Config(pc + |GenStmt(s, depth, cs).code|, [], Exec(m.prims, s, depth, st, fuel).st, []),
        RoundStart(s, depth, cs, pc), visits)
    ensures |visits| == Count(a, b)
    ensures forall i :: 0 <= i < |visits| ==>
      visits[i].Running? && |st.vals| < |visits[i].stack| && visits[i].stack[|st.vals|] == Int(a + i)
    ensures |Exec(m.prims, s, depth, st, fuel).st.vals| == |st.vals|
  {
    hide Vm.Strict, Exec, GenStmt, Supported, Aligned, Balanced, Eval, SupportedExpr, Runs, Rounds, EndStays,
         KeepsVariable, Placed, RoundStart, NamesOf, Within, Entered;
    n, visits := ForRuns(m, s, depth, scoped, cs, pc, st, fuel);
    ForCounts(m.prims, s, depth, st, fuel, a, b);
    var k, rounds := |st.names|,
      Rounds(m.prims, s, |st.names|, depth + 1, Entered(s, depth, Eval(m.prims, s.start, st)), fuel);
    forall i | 0 <= i < |visits|
      ensures visits[i].Running? && k < |visits[i].stack| && visits[i].stack[k] == Int(a + i)
    {
      assert Enter(visits[i], rounds[i], RoundStart(s, depth, cs, pc));
      assert visits[i].stack[k] == visits[i].stack[..|rounds[i].vals|][k];
    }
  }
}
