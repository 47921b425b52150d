/** Where the compiled code departs from the program's meaning, and exactly when. */
module Limits {
  import opened Wrappers
  import opened Values
  import opened Bytecode
  import opened Ast
  import opened Semantics
  import opened CodeGen
  import opened Machine
  import opened StmtCorrect
  import opened CompilerCorrect

  // ----- `if` without `else` -----

  /** In both lemmas the machine has evaluated a condition that holds (`c`), and the
      code of the branch takes the stack from `below` to that of `after`. With an `else`
      the statement ends with that stack. */
  lemma IfElseKeepsStack(m: Vm, s: Stmt, depth: nat, st: Static, pc: int, v: Value, below: seq<Value>, c: Conf,
      k: nat, after: Conf)
    requires s.If? && s.elseBranch.Some? && At(m.code, pc, GenStmt(s, depth, st).code) && |m.code| <= 0xffff
    requires BranchRun(m, s, depth, st, pc, v, below, c, k, after)
    ensures m.Run(k + 3, c) == after.(pc := pc + |GenStmt(s, depth, st).code|)
  {
    hide GenExpr, GenStmt, Forward, Vm.Run;
    GenIfElse(s, depth, st);
    var g := GenExpr(s.cond, st);
    var h := GenStmt(s.thenBranch, depth, g.s);
    var skip := 1 + |h.code| + 3;
    var w := GenStmt(s.elseBranch.value, depth, TooFar(h.s, skip > 0xffff));
    SplitIfElse(m.code, pc, g.code, skip, h.code, 1 + |w.code|, w.code);
    TakeBranch(m, c, skip, below, v);
    RunJump(m, after, OP_JUMP, 1 + |w.code|);
    m.RunAdd(2, k, c);
    m.RunAdd(2 + k, 1, c);
  }

  /** Without an `else` one more value is popped: the stack is as the branch left it
      exactly when it was empty. */
  lemma BareIfPops(m: Vm, s: Stmt, depth: nat, st: Static, pc: int, v: Value, below: seq<Value>, c: Conf, k: nat,
      after: Conf)
    requires s.If? && s.elseBranch.None? && At(m.code, pc, GenStmt(s, depth, st).code) && |m.code| <= 0xffff
    requires BranchRun(m, s, depth, st, pc, v, below, c, k, after)
    ensures
      var end := m.Run(k + 3, c);
      && end == after.(pc := pc + |GenStmt(s, depth, st).code|, stack := Vm.Popped(after.stack))
      && (end.stack == after.stack <==> after.stack == [])
  {
    hide GenExpr, GenStmt, Forward, Vm.Run;
    GenIfThen(s, depth, st);
    var g := GenExpr(s.cond, st);
    var h := GenStmt(s.thenBranch, depth, g.s);
    SplitIfThen(m.code, pc, g.code, 1 + |h.code|, h.code);
    TakeBranch(m, c, 1 + |h.code|, below, v);
    RunPop(m, after);
    m.RunAdd(2, k, c);
    m.RunAdd(2 + k, 1, c);
    assert |Vm.Popped(after.stack)| == |after.stack| <==> after.stack == [];
  }

  predicate BranchRun(m: Vm, s: Stmt, depth: nat, st: Static, pc: int, v: Value, below: seq<Value>, c: Conf, k: nat,
      after: Conf)
    requires s.If?
  {
    var g := GenExpr(s.cond, st);
    var from := pc + |g.code| + 4;
    && c.Running? && c.pc == pc + |g.code| && c.stack == below + [v] && !Falsy(v)
    && after.Running? && after.pc == from + |GenStmt(s.thenBranch, depth, g.s).code|
    && m.Run(k, Running(from, below, c.globals, c.out)) == after
  }

  lemma TakeBranch(m: Vm, c: Conf, skip: nat, below: seq<Value>, v: Value)
    requires c.Running? && c.stack == below + [v] && !Falsy(v) && skip <= 0xffff
    requires At(m.code, c.pc, Forward(OP_JUMP_IF_FALSE, skip)) && At(m.code, c.pc + 3, [OP_POP])
    ensures m.Run(2, c) == Running(c.pc + 4, below, c.globals, c.out)
  {
    hide Forward, Vm.Run;
    RunJump(m, c, OP_JUMP_IF_FALSE, skip);
    RunPop(m, c.(pc := c.pc + 3));
    assert Vm.Popped(below + [v]) == below;
    m.RunAdd(1, 1, c);
  }

  lemma RunPop(m: Vm, c: Conf)
    requires c.Running? && At(m.code, c.pc, [OP_POP])
    ensures m.Run(1, c) == c.(pc := c.pc + 1, stack := Vm.Popped(c.stack))
  {
    assert m.code[c.pc..c.pc + 1][0] == OP_POP;
    assert m.Run(1, c) == m.Step(c);
  }

  lemma RunJump(m: Vm, c: Conf, op: byte, skip: nat)
    requires c.Running? && At(m.code, c.pc, Forward(op, skip)) && skip <= 0xffff
    requires op == OP_JUMP || (op == OP_JUMP_IF_FALSE && c.stack != [])
    ensures m.Run(1, c) ==
      c.(pc := if op == OP_JUMP || Falsy(c.stack[|c.stack| - 1]) then c.pc + 3 + skip else c.pc + 3)
  {
    hide Hi, Lo, Short;
    var g := m.code[c.pc..c.pc + 3];
    assert g[0] == op && g[1] == Hi(skip) && g[2] == Lo(skip);
    ShortOf(skip);
    assert m.Run(1, c) == m.Step(c);
  }

  /** A backward jump reaches the start of its loop exactly when its distance fits
      sixteen bits; the compiler does not check that it does. */
  lemma BackwardJumpLands(m: Vm, c: Conf, back: nat)
    requires c.Running? && At(m.code, c.pc, Backward(back))
    ensures m.Step(c) == c.(pc := c.pc + 3 - back) <==> back <= 0xffff
  {
    hide Hi, Lo, Short;
    var g := m.code[c.pc..c.pc + 3];
    assert g[0] == OP_JUMP_BACK && g[1] == Hi(back) && g[2] == Lo(back);
    ShortOf(back);
  }

  // ----- slots -----

  /** With the block variables' values on top of `residue`, the code that reads `name`
      pushes its value, whatever the values are. */
  ghost predicate ReadsOwn(m: Vm, c: Conf, k: nat, n: nat, residue: seq<Value>)
    requires c.Running? && k < n
  {
    forall vals: seq<Value> | |vals| == n ::
      m.Step(c.(stack := residue + vals)) == c.(pc := c.pc + 2, stack := residue + vals + [vals[k]])
  }

  /** The code that stores to it replaces its value by the one on top, and nothing else. */
  ghost predicate WritesOwn(m: Vm, c: Conf, k: nat, n: nat, residue: seq<Value>)
    requires c.Running? && k < n
  {
    forall vals: seq<Value>, v: Value | |vals| == n ::
      m.Step(c.(stack := residue + vals + [v])) == c.(pc := c.pc + 2, stack := residue + vals[k := v] + [v])
  }

  /** The code of a block variable reads that variable exactly when no value has been left
      on the stack below the block variables. */
  lemma SlotReads(m: Vm, s: Static, name: string, c: Conf, residue: seq<Value>)
    requires c.Running? && Resolve(s, name) >= 0 && |residue| + |s.locals| < STACK_MAX && |s.locals| <= MAX_LOCALS
    requires At(m.code, c.pc, Variable(OP_GET_LOCAL, OP_GET_GLOBAL, name, s).code)
    ensures ReadsOwn(m, c, Resolve(s, name), |s.locals|, residue) <==> residue == []
  {
    hide FindLast, Vm.Step;
    var k, n := Resolve(s, name), |s.locals|;
    var op := m.code[c.pc..c.pc + 2];
    assert op[0] == OP_GET_LOCAL && op[1] == k;
    forall vals: seq<Value> | |vals| == n
      ensures m.Step(c.(stack := residue + vals)) == c.(pc := c.pc + 2, stack := residue + vals + [(residue + vals)[k]])
    {
      StepLocal(m, c.(stack := residue + vals), k);
    }
    if residue != [] {
      var other: Value := if k < |residue| && residue[k] == Nil then Bool(true) else Nil;
      var vals := seq(n, i => if i == k then other else Bool(true));
      assert (residue + vals)[k] != vals[k];
      assert (residue + vals + [(residue + vals)[k]])[|residue| + n] != (residue + vals + [vals[k]])[|residue| + n];
    }
  }

  lemma StepLocal(m: Vm, c: Conf, k: byte)
    requires c.Running? && 0 <= c.pc && c.pc + 1 < |m.code| && k < |c.stack| < STACK_MAX && m.code[c.pc + 1] == k
    requires m.code[c.pc] == OP_GET_LOCAL || m.code[c.pc] == OP_SET_LOCAL
    ensures m.Step(c) == c.(pc := c.pc + 2,
      stack := if m.code[c.pc] == OP_GET_LOCAL then c.stack + [c.stack[k]] else c.stack[k := c.stack[|c.stack| - 1]])
  {
  }

  /** Likewise for the code that stores to it. */
  lemma SlotWrites(m: Vm, s: Static, name: string, c: Conf, residue: seq<Value>)
    requires c.Running? && Resolve(s, name) >= 0 && |residue| + |s.locals| + 1 < STACK_MAX && |s.locals| <= MAX_LOCALS
    requires At(m.code, c.pc, Variable(OP_SET_LOCAL, OP_SET_GLOBAL, name, s).code)
    ensures WritesOwn(m, c, Resolve(s, name), |s.locals|, residue) <==> residue == []
  {
    hide FindLast, Vm.Step;
    var k, n := Resolve(s, name), |s.locals|;
    var op := m.code[c.pc..c.pc + 2];
    assert op[0] == OP_SET_LOCAL && op[1] == k;
    forall vals: seq<Value>, v: Value | |vals| == n
      ensures m.Step(c.(stack := residue + vals + [v])) == c.(pc := c.pc + 2, stack := (residue + vals + [v])[k := v])
    {
      StepLocal(m, c.(stack := residue + vals + [v]), k);
    }
    if residue == [] {
      assert forall vals: seq<Value>, v: Value | |vals| == n ::
        (residue + vals + [v])[k := v] == residue + vals[k := v] + [v];
    } else {
      var vals := seq(n, i => Nil);
      var v := Bool(true);
      assert (residue + vals + [v])[k := v][|residue| + k] == Nil;
      assert (residue + vals[k := v] + [v])[|residue| + k] == v;
    }
  }

  // ----- runs of single programs -----

  ghost predicate Reached(m: Vm, c: Conf) {
    exists n: nat :: m.Run(n, Boot()) == c
  }

  lemma Then(m: Vm, c: Conf)
    requires Reached(m, c) && c.Running?
    ensures Reached(m, m.Step(c))
  {
    hide Vm.Step;
    var n: nat :| m.Run(n, Boot()) == c;
    m.RunAdd(n, 1, Boot());
    assert m.Run(1, c) == m.Run(0, m.Step(c));
  }

  predicate Byte(m: Vm, pc: int, b: byte) {
    0 <= pc < |m.code| && m.code[pc] == b
  }

  /** `d` is `c` with another place and stack. */
  predicate Moves(c: Conf, d: Conf, shift: int, stack: seq<Value>) {
    c.Running? && d.Running? && d.stack == stack && d == c.(pc := c.pc + shift, stack := d.stack)
  }

  lemma ThenPush(m: Vm, c: Conf, d: Conf, op: byte, v: Value)
    requires c.Running? && Reached(m, c) && Byte(m, c.pc, op) && |c.stack| < STACK_MAX
    requires (op, v) == (OP_TRUE, Bool(true)) || (op, v) == (OP_NIL, Nil)
    requires Moves(c, d, 1, c.stack + [v])
    ensures Reached(m, d)
  {
    hide Reached;
    Then(m, c);
  }

  lemma ThenConstant(m: Vm, c: Conf, d: Conf, k: byte)
    requires c.Running? && Reached(m, c) && Byte(m, c.pc, OP_CONSTANT) && Byte(m, c.pc + 1, k)
    requires k < |m.constants| && |c.stack| < STACK_MAX && Moves(c, d, 2, c.stack + [m.constants[k]])
    ensures Reached(m, d)
  {
    hide Reached;
    Then(m, c);
  }

  lemma ThenGetLocal(m: Vm, c: Conf, d: Conf, k: byte)
    requires c.Running? && Reached(m, c) && Byte(m, c.pc, OP_GET_LOCAL) && Byte(m, c.pc + 1, k)
    requires k < |c.stack| < STACK_MAX && Moves(c, d, 2, c.stack + [c.stack[k]])
    ensures Reached(m, d)
  {
    hide Reached;
    Then(m, c);
  }

  lemma ThenSetGlobal(m: Vm, c: Conf, d: Conf, k: byte)
    requires c.Running? && Reached(m, c) && Byte(m, c.pc, OP_SET_GLOBAL) && Byte(m, c.pc + 1, k)
    requires c.stack != [] && k < |m.constants| && m.constants[k].Str?
    requires d == Running(c.pc + 2, c.stack, c.globals[m.constants[k].s := c.stack[|c.stack| - 1]], c.out)
    ensures Reached(m, d)
  {
    hide Reached;
    Then(m, c);
  }

  lemma ThenPop(m: Vm, c: Conf, d: Conf)
    requires c.Running? && Reached(m, c) && Byte(m, c.pc, OP_POP) && Moves(c, d, 1, Vm.Popped(c.stack))
    ensures Reached(m, d)
  {
    hide Reached;
    Then(m, c);
  }

  lemma ThenPrint(m: Vm, c: Conf, d: Conf)
    requires c.Running? && Reached(m, c) && Byte(m, c.pc, OP_PRINT) && c.stack != []
    requires d == Running(c.pc + 1, Vm.Popped(c.stack), c.globals, c.out + [ByStatement(c.stack[|c.stack| - 1])])
    ensures Reached(m, d)
  {
    hide Reached;
    Then(m, c);
  }

  /** A jump by less than 256 bytes; the conditional one with a value that holds. */
  lemma ThenJump(m: Vm, c: Conf, d: Conf, op: byte, skip: byte)
    requires c.Running? && Reached(m, c) && Byte(m, c.pc, op) && Byte(m, c.pc + 1, 0) && Byte(m, c.pc + 2, skip)
    requires op == OP_JUMP || op == OP_JUMP_BACK ||
      (op == OP_JUMP_IF_FALSE && c.stack != [] && !Falsy(c.stack[|c.stack| - 1]))
    requires Moves(c, d, if op == OP_JUMP then 3 + skip else if op == OP_JUMP_BACK then 3 - skip else 3, c.stack)
    ensures Reached(m, d)
  {
    hide Reached;
    Then(m, c);
  }

  lemma ThenHalt(m: Vm, c: Conf)
    requires c.Running? && Reached(m, c) && Byte(m, c.pc, OP_HALT)
    ensures MachineStops(m, Ok, c.globals, c.out)
  {
    Then(m, c);
  }

  // ----- a bare `if` under a block variable -----

  const A1: Stmt := Let("a", Some(IntLit(1)))
  const BARE: Stmt := If(BoolLit(true), Block([]), None)
  const C3: Stmt := Let("c", Some(IntLit(3)))
  const SHOW_A: Stmt := Print(Ident("a"))

  /** if true { let a = 1  if true {}  let c = 3  print(a) } else {} */
  const BARE_IF: Stmt := If(BoolLit(true), Block([A1, BARE, C3, SHOW_A]), Some(Block([])))

  lemma Four(a: Stmt, b: Stmt, c: Stmt, d: Stmt, depth: nat, s: Static)
    ensures
      var g := GenStmt(a, depth, s);
      var h := GenStmt(b, depth, g.s);
      var k := GenStmt(c, depth, h.s);
      var l := GenStmt(d, depth, k.s);
      GenStmts([a, b, c, d], depth, s) == Emitted(g.code + h.code + k.code + l.code, l.s)
  {
    hide GenStmt;
    assert [a, b, c, d][1..] == [b, c, d];
    assert [b, c, d][1..] == [c, d];
    Two(c, d, depth, GenStmt(b, depth, GenStmt(a, depth, s).s).s);
  }

  lemma Two(a: Stmt, b: Stmt, depth: nat, s: Static)
    ensures
      var g := GenStmt(a, depth, s);
      var h := GenStmt(b, depth, g.s);
      GenStmts([a, b], depth, s) == Emitted(g.code + h.code, h.s)
  {
    hide GenStmt;
    One(b, depth, GenStmt(a, depth, s).s);
    assert [a, b][1..] == [b];
  }

  lemma One(a: Stmt, depth: nat, s: Static)
    ensures GenStmts([a], depth, s) == GenStmt(a, depth, s)
  {
    hide GenStmt;
    assert [a][1..] == [];
  }

  lemma NoStmts(depth: nat, s: Static)
    requires forall i :: 0 <= i < |s.locals| ==> s.locals[i].depth <= depth
    ensures GenStmt(Block([]), depth, s) == Emitted([], s)
  {
  }

  lemma FourParts()
    ensures
      var s0 := Static([], [], false);
      var s1 := Static([Int(1)], [Local("a", 1)], false);
      var s2 := Static([Int(1), Int(3)], [Local("a", 1), Local("c", 1)], false);
      && GenStmt(A1, 1, s0) == Emitted([1, 0], s1)
      && GenStmt(C3, 1, s1) == Emitted([1, 1], s2)
      && GenStmt(SHOW_A, 1, s2) == Emitted([8, 0, 36], s2)
  {
    var s2 := Static([Int(1), Int(3)], [Local("a", 1), Local("c", 1)], false);
    assert NamesOf(s2.locals) == ["a", "c"];
    assert ["a", "c"][..1] == ["a"];
    assert FindLast(["a"], "a") == 0;
    assert FindLast(["a", "c"], "a") == 0;
  }

  lemma BareCode(s: Static)
    requires forall i :: 0 <= i < |s.locals| ==> s.locals[i].depth <= 1
    ensures !s.err ==> GenStmt(BARE, 1, s) == Emitted([3, 32, 0, 1, 6, 6], s)
  {
    NoStmts(1, s);
    GenIfThen(BARE, 1, s);
    assert Forward(OP_JUMP_IF_FALSE, 1) == [32, 0, 1];
    assert GenExpr(BoolLit(true), s) == Emitted([3], s);
  }

  const BODY: seq<byte> := [1, 0, 3, 32, 0, 1, 6, 6, 1, 1, 8, 0, 36]

  lemma BlockCode()
    ensures GenStmt(Block([A1, BARE, C3, SHOW_A]), 0, Static([], [], false)) ==
            Emitted(BODY + [6, 6], Static([Int(1), Int(3)], [], false))
  {
    hide GenStmt, CountAbove;
    var s0 := Static([], [], false);
    var s1 := Static([Int(1)], [Local("a", 1)], false);
    var s2 := Static([Int(1), Int(3)], [Local("a", 1), Local("c", 1)], false);
    FourParts();
    BareCode(s1);
    Four(A1, BARE, C3, SHOW_A, 1, s0);
    CountAboveGrown([], s2.locals, 0);
    assert Pops(2) == [6, 6];
    BlockUnfold([A1, BARE, C3, SHOW_A], s0);
  }

  lemma BlockUnfold(ss: seq<Stmt>, s: Static)
    ensures GenStmt(Block(ss), 0, s) == EndScope(GenStmts(ss, 1, s), 0)
  {
    hide GenStmts, EndScope;
  }

  lemma BareIfCode()
    ensures GenProgram([BARE_IF]) ==
            Emitted([3, 32, 0, 19, 6] + (BODY + [6, 6]) + [31, 0, 1, 6], Static([Int(1), Int(3)], [], false))
  {
    hide GenStmt;
    var s0 := Static([], [], false);
    BlockCode();
    NoStmts(0, Static([Int(1), Int(3)], [], false));
    GenIfElse(BARE_IF, 0, s0);
    assert Forward(OP_JUMP_IF_FALSE, 19) == [32, 0, 19] && Forward(OP_JUMP, 1) == [31, 0, 1];
    One(BARE_IF, 0, s0);
    assert GenExpr(BoolLit(true), s0) == Emitted([3], s0);
  }

  lemma FourSupported(a: Stmt, b: Stmt, c: Stmt, d: Stmt)
    requires Supported(a) && Supported(b) && Supported(c) && Supported(d)
    ensures SupportedList([a, b, c, d])
  {
    hide Supported;
    assert [a, b, c, d][1..] == [b, c, d] && [b, c, d][1..] == [c, d] && [c, d][1..] == [d] && [d][1..] == [];
    assert SupportedList([d]) && SupportedList([c, d]) && SupportedList([b, c, d]);
  }

  /** Four statements that all end normally. */
  lemma FourSteps(P: Prims, a: Stmt, b: Stmt, c: Stmt, d: Stmt, depth: nat, s0: State, s1: State, s2: State,
      s3: State, s4: State)
    requires Supported(a) && Supported(b) && Supported(c) && Supported(d)
    requires WellFormed(s0) && WellFormed(s1) && WellFormed(s2) && WellFormed(s3)
    requires Exec(P, a, depth, s0, 0) == Next(s1) && Exec(P, b, depth, s1, 0) == Next(s2)
    requires Exec(P, c, depth, s2, 0) == Next(s3) && Exec(P, d, depth, s3, 0) == Next(s4)
    ensures SupportedList([a, b, c, d]) && ExecList(P, [a, b, c, d], depth, s0, 0) == Next(s4)
  {
    hide Supported, Exec;
    FourSupported(a, b, c, d);
    assert [a, b, c, d][1..] == [b, c, d] && [b, c, d][1..] == [c, d] && [c, d][1..] == [d] && [d][1..] == [];
    assert SupportedList([d]) && SupportedList([c, d]) && SupportedList([b, c, d]);
    assert ExecList(P, [d], depth, s3, 0) == Next(s4);
    assert ExecList(P, [c, d], depth, s2, 0) == Next(s4);
    assert ExecList(P, [b, c, d], depth, s1, 0) == Next(s4);
  }

  function Scoped(names: seq<string>, vals: seq<Value>, out: seq<Printed>): State {
    State(names, vals, NATIVES, out, 0)
  }

  lemma BareIfBody(P: Prims)
    ensures
      var body := [A1, BARE, C3, SHOW_A];
      && SupportedList(body)
      && ExecList(P, body, 1, Initial(), 0) == Next(Scoped(["a", "c"], [Int(1), Int(3)], [ByStatement(Int(1))]))
  {
    var s1, s2 := Scoped(["a"], [Int(1)], []), Scoped(["a", "c"], [Int(1), Int(3)], []);
    assert Supported(BARE) by {
      assert Supported(Block([]));
    }
    assert Exec(P, BARE, 1, s1, 0) == Next(s1) by {
      assert ExecList(P, [], 2, s1, 0) == Next(s1);
      assert Exec(P, Block([]), 1, s1, 0) == Next(s1);
    }
    assert ["a", "c"][..1] == ["a"];
    assert FindLast(["a"], "a") == 0;
    assert FindLast(["a", "c"], "a") == 0;
    FourSteps(P, A1, BARE, C3, SHOW_A, 1, Initial(), s1, s1, s2, s2.(out := [ByStatement(Int(1))]));
  }

  /** The program means that 1 is printed. */
  lemma BareIfMeaning(P: Prims)
    ensures SupportedList([BARE_IF])
    ensures ExecProgram(P, [BARE_IF], 0) == Stop(Ok, NATIVES, [ByStatement(Int(1))])
  {
    var body := [A1, BARE, C3, SHOW_A];
    BareIfBody(P);
    var st := Scoped([], [], [ByStatement(Int(1))]);
    assert [BARE_IF][1..] == [];
    assert Supported(Block(body)) && Supported(Block([]));
    assert Supported(BARE_IF) && SupportedList([BARE_IF]);
    assert Exec(P, Block(body), 0, Initial(), 0) == Next(st);
    assert Exec(P, BARE_IF, 0, Initial(), 0) == Next(st);
    assert ExecList(P, [], 0, st, 0) == Next(st);
  }

  lemma BareIfBytes(m: Vm)
    requires m.code == [3, 32, 0, 19, 6] + (BODY + [6, 6]) + [31, 0, 1, 6] + [OP_HALT] &&
      m.constants == [Int(1), Int(3)]
    ensures BareIfLoaded(m)
  {
  }

  /** A configuration with nothing but the machine's own globals. */
  function R(pc: int, stack: seq<Value>, out: seq<Printed>): Conf {
    Running(pc, stack, NATIVES, out)
  }

  lemma Booted(m: Vm)
    ensures Reached(m, R(0, [], []))
  {
    assert m.Run(0, Boot()) == R(0, [], []);
  }

  /** The code of the program, byte by byte. */
  predicate BareIfLoaded(m: Vm) {
    && m.constants == [Int(1), Int(3)]
    && Byte(m, 0, 3) && Byte(m, 1, 32) && Byte(m, 2, 0) && Byte(m, 3, 19) && Byte(m, 4, 6)
    && Byte(m, 5, 1) && Byte(m, 6, 0) && Byte(m, 7, 3) && Byte(m, 8, 32) && Byte(m, 9, 0)
    && Byte(m, 10, 1) && Byte(m, 11, 6) && Byte(m, 12, 6) && Byte(m, 13, 1) && Byte(m, 14, 1)
    && Byte(m, 15, 8) && Byte(m, 16, 0) && Byte(m, 17, 36) && Byte(m, 18, 6) && Byte(m, 19, 6)
    && Byte(m, 20, 31) && Byte(m, 21, 0) && Byte(m, 22, 1) && Byte(m, 23, 6) && Byte(m, 24, 49)
  }

  /** The machine prints 3: the `if` without `else` has popped the variable a. */
  lemma BareIfRun(m: Vm)
    requires BareIfLoaded(m)
    ensures MachineStops(m, Ok, NATIVES, [ByStatement(Int(3))])
  {
    hide Reached, MachineStops, NATIVES;
    BareIfStart(m);
    var out := [ByStatement(Int(3))];
    ThenConstant(m, R(13, [], []), R(15, [Int(3)], []), 1);
    ThenGetLocal(m, R(15, [Int(3)], []), R(17, [Int(3), Int(3)], []), 0);
    ThenPrint(m, R(17, [Int(3), Int(3)], []), R(18, [Int(3)], out));
    ThenPop(m, R(18, [Int(3)], out), R(19, [], out));
    ThenPop(m, R(19, [], out), R(20, [], out));
    ThenJump(m, R(20, [], out), R(24, [], out), OP_JUMP, 1);
    ThenHalt(m, R(24, [], out));
  }

  lemma BareIfStart(m: Vm)
    requires BareIfLoaded(m)
    ensures Reached(m, R(13, [], []))
  {
    hide Reached, NATIVES;
    Booted(m);
    ThenPush(m, R(0, [], []), R(1, [Bool(true)], []), OP_TRUE, Bool(true));
    ThenJump(m, R(1, [Bool(true)], []), R(4, [Bool(true)], []), OP_JUMP_IF_FALSE, 19);
    ThenPop(m, R(4, [Bool(true)], []), R(5, [], []));
    ThenConstant(m, R(5, [], []), R(7, [Int(1)], []), 0);
    ThenPush(m, R(7, [Int(1)], []), R(8, [Int(1), Bool(true)], []), OP_TRUE, Bool(true));
    ThenJump(m, R(8, [Int(1), Bool(true)], []), R(11, [Int(1), Bool(true)], []), OP_JUMP_IF_FALSE, 1);
    ThenPop(m, R(11, [Int(1), Bool(true)], []), R(12, [Int(1)], []));
    ThenPop(m, R(12, [Int(1)], []), R(13, [], []));
  }

  /** An `if` without `else` under a block variable can change what a program prints. */
  lemma BareIfMiscompiled(P: Prims)
    ensures SupportedList([BARE_IF])
    ensures ProgramStops(P, [BARE_IF], Ok, NATIVES, [ByStatement(Int(1))])
    ensures MachineStops(Load(P, [BARE_IF], true), Ok, NATIVES, [ByStatement(Int(3))])
  {
    hide ExecProgram, SupportedList, MachineStops, GenProgram, BareIfLoaded, NATIVES;
    BareIfMeaning(P);
    BareIfCode();
    BareIfBytes(Load(P, [BARE_IF], true));
    BareIfRun(Load(P, [BARE_IF], true));
  }

  // ----- a block variable above a value left behind -----

  const X1: Stmt := Let("x", Some(IntLit(1)))
  const Y2: Stmt := Let("y", Some(IntLit(2)))
  const SHOW_Y: Stmt := Print(Ident("y"))

  /** let x = 1  if true { let y = 2  print(y) } else {} */
  const SCOPED_Y: Stmt := If(BoolLit(true), Block([Y2, SHOW_Y]), Some(Block([])))

  const LEFT_BELOW_CONSTANTS: seq<Value> := [Int(1), Str("x"), Int(2)]

  lemma ShowYCode()
    ensures
      var s0 := Static([Int(1), Str("x")], [], false);
      GenStmt(Block([Y2, SHOW_Y]), 0, s0) == Emitted([1, 2, 8, 0, 36, 6], Static(LEFT_BELOW_CONSTANTS, [], false))
  {
    hide GenStmt, CountAbove;
    var s0 := Static([Int(1), Str("x")], [], false);
    var s1 := Static(LEFT_BELOW_CONSTANTS, [Local("y", 1)], false);
    YParts();
    Two(Y2, SHOW_Y, 1, s0);
    CountAboveGrown([], s1.locals, 0);
    assert Pops(1) == [6];
    BlockUnfold([Y2, SHOW_Y], s0);
  }

  lemma YParts()
    ensures
      var s1 := Static(LEFT_BELOW_CONSTANTS, [Local("y", 1)], false);
      && GenStmt(Y2, 1, Static([Int(1), Str("x")], [], false)) == Emitted([1, 2], s1)
      && GenStmt(SHOW_Y, 1, s1) == Emitted([8, 0, 36], s1)
  {
    assert NamesOf([Local("y", 1)]) == ["y"];
    assert FindLast(["y"], "y") == 0;
  }

  lemma ScopedYCode()
    ensures
      var s1 := Static([Int(1), Str("x")], [], false);
      GenStmt(SCOPED_Y, 0, s1) ==
      Emitted([3, 32, 0, 10, 6] + [1, 2, 8, 0, 36, 6] + [31, 0, 1, 6], Static(LEFT_BELOW_CONSTANTS, [], false))
  {
    hide GenStmt;
    var s1 := Static([Int(1), Str("x")], [], false);
    ShowYCode();
    NoStmts(0, Static(LEFT_BELOW_CONSTANTS, [], false));
    GenIfElse(SCOPED_Y, 0, s1);
    assert Forward(OP_JUMP_IF_FALSE, 10) == [32, 0, 10] && Forward(OP_JUMP, 1) == [31, 0, 1];
    assert GenExpr(BoolLit(true), s1) == Emitted([3], s1);
  }

  lemma LeftBelowCode()
    ensures GenProgram([X1, SCOPED_Y]) ==
            Emitted([1, 0, 11, 1] + ([3, 32, 0, 10, 6] + [1, 2, 8, 0, 36, 6] + [31, 0, 1, 6]),
              Static(LEFT_BELOW_CONSTANTS, [], false))
  {
    hide GenStmt;
    ScopedYCode();
    XCode();
    Two(X1, SCOPED_Y, 0, Static([], [], false));
  }

  lemma LeftBelowBytes(m: Vm)
    requires m.code == [1, 0, 11, 1] + ([3, 32, 0, 10, 6] + [1, 2, 8, 0, 36, 6] + [31, 0, 1, 6]) + [OP_HALT]
    requires m.constants == LEFT_BELOW_CONSTANTS
    ensures LeftBelowLoaded(m)
  {
  }

  lemma XCode()
    ensures GenStmt(X1, 0, Static([], [], false)) == Emitted([1, 0, 11, 1], Static([Int(1), Str("x")], [], false))
  {
  }

  /** The code of the program, byte by byte. */
  predicate LeftBelowLoaded(m: Vm) {
    && m.constants == LEFT_BELOW_CONSTANTS
    && Byte(m, 0, 1) && Byte(m, 1, 0) && Byte(m, 2, 11) && Byte(m, 3, 1) && Byte(m, 4, 3)
    && Byte(m, 5, 32) && Byte(m, 6, 0) && Byte(m, 7, 10) && Byte(m, 8, 6) && Byte(m, 9, 1)
    && Byte(m, 10, 2) && Byte(m, 11, 8) && Byte(m, 12, 0) && Byte(m, 13, 36) && Byte(m, 14, 6)
    && Byte(m, 15, 31) && Byte(m, 16, 0) && Byte(m, 17, 1) && Byte(m, 18, 6) && Byte(m, 19, 49)
  }

  /** The machine prints 1: slot 0 holds the value that `let x` has left behind. */
  lemma LeftBelowRun(m: Vm)
    requires LeftBelowLoaded(m)
    ensures MachineStops(m, Ok, NATIVES["x" := Int(1)], [ByStatement(Int(1))])
  {
    hide Reached, MachineStops, NATIVES;
    var g, out := NATIVES["x" := Int(1)], [ByStatement(Int(1))];
    Booted(m);
    ThenConstant(m, R(0, [], []), R(2, [Int(1)], []), 0);
    ThenSetGlobal(m, R(2, [Int(1)], []), Running(4, [Int(1)], g, []), 1);
    ThenPush(m, Running(4, [Int(1)], g, []), Running(5, [Int(1), Bool(true)], g, []), OP_TRUE, Bool(true));
    ThenJump(m, Running(5, [Int(1), Bool(true)], g, []), Running(8, [Int(1), Bool(true)], g, []), OP_JUMP_IF_FALSE, 10);
    ThenPop(m, Running(8, [Int(1), Bool(true)], g, []), Running(9, [Int(1)], g, []));
    ThenConstant(m, Running(9, [Int(1)], g, []), Running(11, [Int(1), Int(2)], g, []), 2);
    ThenGetLocal(m, Running(11, [Int(1), Int(2)], g, []), Running(13, [Int(1), Int(2), Int(1)], g, []), 0);
    ThenPrint(m, Running(13, [Int(1), Int(2), Int(1)], g, []), Running(14, [Int(1), Int(2)], g, out));
    ThenPop(m, Running(14, [Int(1), Int(2)], g, out), Running(15, [Int(1)], g, out));
    ThenJump(m, Running(15, [Int(1)], g, out), Running(19, [Int(1)], g, out), OP_JUMP, 1);
    ThenHalt(m, Running(19, [Int(1)], g, out));
  }

  lemma ShowYMeaning(P: Prims)
    ensures
      var g := NATIVES["x" := Int(1)];
      && SupportedList([Y2, SHOW_Y])
      && ExecList(P, [Y2, SHOW_Y], 1, State([], [], g, [], 1), 0) ==
        Next(State(["y"], [Int(2)], g, [ByStatement(Int(2))], 1))
  {
    var g := NATIVES["x" := Int(1)];
    var s2 := State(["y"], [Int(2)], g, [], 1);
    var s3 := s2.(out := [ByStatement(Int(2))]);
    assert [Y2, SHOW_Y][1..] == [SHOW_Y] && [SHOW_Y][1..] == [];
    assert Supported(SHOW_Y) && Supported(Y2);
    assert SupportedList([]);
    assert SupportedList([SHOW_Y]);
    assert FindLast(["y"], "y") == 0;
    assert ExecList(P, [], 1, s3, 0) == Next(s3);
    assert Exec(P, SHOW_Y, 1, s2, 0) == Next(s3);
    assert ExecList(P, [SHOW_Y], 1, s2, 0) == Next(s3);
    assert Exec(P, Y2, 1, State([], [], g, [], 1), 0) == Next(s2);
  }

  /** The program means that 2 is printed. */
  lemma LeftBelowMeaning(P: Prims)
    ensures SupportedList([X1, SCOPED_Y])
    ensures ProgramStops(P, [X1, SCOPED_Y], Ok, NATIVES["x" := Int(1)], [ByStatement(Int(2))])
  {
    hide NATIVES;
    var g, out := NATIVES["x" := Int(1)], [ByStatement(Int(2))];
    var s1, s4 := State([], [], g, [], 1), State([], [], g, out, 1);
    ShowYMeaning(P);
    assert [X1, SCOPED_Y][1..] == [SCOPED_Y] && [SCOPED_Y][1..] == [];
    assert Supported(Block([Y2, SHOW_Y])) && Supported(Block([]));
    assert Supported(SCOPED_Y) && SupportedList([SCOPED_Y]);
    assert Exec(P, Block([Y2, SHOW_Y]), 0, s1, 0) == Next(s4);
    assert Exec(P, SCOPED_Y, 0, s1, 0) == Next(s4);
    assert ExecList(P, [], 0, s4, 0) == Next(s4);
    assert ExecList(P, [SCOPED_Y], 0, s1, 0) == Next(s4);
    assert Exec(P, X1, 0, Initial(), 0) == Next(s1);
    assert ExecProgram(P, [X1, SCOPED_Y], 0) == Stop(Ok, g, out);
  }

  /** A block variable after a top-level declaration can read another value than its own. */
  lemma LeftBelowMiscompiled(P: Prims)
    ensures SupportedList([X1, SCOPED_Y])
    ensures ProgramStops(P, [X1, SCOPED_Y], Ok, NATIVES["x" := Int(1)], [ByStatement(Int(2))])
    ensures MachineStops(Load(P, [X1, SCOPED_Y], true), Ok, NATIVES["x" := Int(1)], [ByStatement(Int(1))])
  {
    hide ExecProgram, SupportedList, MachineStops, ProgramStops, GenProgram, LeftBelowLoaded, NATIVES;
    LeftBelowMeaning(P);
    LeftBelowCode();
    LeftBelowBytes(Load(P, [X1, SCOPED_Y], true));
    LeftBelowRun(Load(P, [X1, SCOPED_Y], true));
  }

  // ----- a loop too long for its jump back -----

  const NOTHING: Stmt := ExprStmt(NilLit)
  const PER_ROUND: nat := 32765

  /** while true { nil ... nil } */
  const LONG_LOOP: Stmt := While(BoolLit(true), Block(seq(PER_ROUND, _ => NOTHING)))

  function NilPop(n: nat): (code: seq<byte>)
    ensures |code| == 2 * n
  {
    seq(2 * n, i => if i % 2 == 0 then OP_NIL else OP_POP)
  }

  lemma {:induction false} NothingCode(n: nat, depth: nat, s: Static)
    ensures GenStmts(seq(n, _ => NOTHING), depth, s) == Emitted(NilPop(n), s)
  {
    hide GenStmt;
    var ss := seq(n, _ => NOTHING);
    if n > 0 {
      assert ss[1..] == seq(n - 1, _ => NOTHING);
      NothingCode(n - 1, depth, s);
      assert GenStmt(NOTHING, depth, s) == Emitted([OP_NIL, OP_POP], s) by { NothingOne(depth, s); }
      assert NilPop(n) == [OP_NIL, OP_POP] + NilPop(n - 1);
    }
  }

  lemma NothingOne(depth: nat, s: Static)
    ensures GenStmt(NOTHING, depth, s) == Emitted([OP_NIL, OP_POP], s)
  {
  }

  /** The forward jump fits, so no error is reported; the distance back is two too large. */
  lemma LongLoopCode()
    ensures GenProgram([LONG_LOOP]) ==
            Emitted([3, 32, 255, 254, 6] + NilPop(PER_ROUND) + [33, 0, 2] + [6], Static([], [], false))
  {
    hide GenStmt, NilPop;
    var s := Static([], [], false);
    NothingCode(PER_ROUND, 0, s);
    GenBodyBlock(LONG_LOOP.body, 0, s);
    GenWhile(LONG_LOOP, 0, s);
    assert Forward(OP_JUMP_IF_FALSE, 65534) == [32, 255, 254];
    assert Backward(65538) == [33, 0, 2];
    assert GenExpr(BoolLit(true), s) == Emitted([3], s);
    One(LONG_LOOP, 0, s);
  }

  lemma {:induction false} NothingDone(P: Prims, n: nat, depth: nat, st: State, fuel: nat)
    requires WellFormed(st) && Room(st, 1)
    ensures SupportedList(seq(n, _ => NOTHING)) && ExecList(P, seq(n, _ => NOTHING), depth, st, fuel) == Next(st)
  {
    var ss := seq(n, _ => NOTHING);
    if n > 0 {
      assert ss[1..] == seq(n - 1, _ => NOTHING);
      NothingDone(P, n - 1, depth, st, fuel);
    }
  }

  lemma {:induction false} LongLoopDiverges(P: Prims, fuel: nat)
    ensures SupportedList([LONG_LOOP]) && Exec(P, LONG_LOOP, 0, Initial(), fuel) == OutOfFuel
  {
    hide ExecList;
    NothingDone(P, PER_ROUND, 0, Initial(), fuel);
    assert [LONG_LOOP][1..] == [];
    if fuel > 0 {
      LongLoopDiverges(P, fuel - 1);
    }
  }

  lemma ThenNilPop(m: Vm, pc: int)
    requires Reached(m, R(pc, [], [])) && Byte(m, pc, OP_NIL) && Byte(m, pc + 1, OP_POP)
    ensures Reached(m, R(pc + 2, [], []))
  {
    hide Reached, NATIVES, Byte;
    ThenPush(m, R(pc, [], []), R(pc + 1, [Nil], []), OP_NIL, Nil);
    ThenPop(m, R(pc + 1, [Nil], []), R(pc + 2, [], []));
  }

  lemma LongLoopStart(m: Vm)
    requires LongLoop(m)
    ensures Reached(m, R(5, [], []))
  {
    hide Reached, NATIVES;
    Booted(m);
    ThenPush(m, R(0, [], []), R(1, [Bool(true)], []), OP_TRUE, Bool(true));
    ThenEnter(m);
    ThenPop(m, R(4, [Bool(true)], []), R(5, [], []));
  }

  lemma {:induction false} LongLoopRound(m: Vm, i: nat)
    requires LongLoop(m) && i <= PER_ROUND
    ensures Reached(m, R(5 + 2 * i, [], []))
  {
    hide Reached, NATIVES, R;
    if i == 0 {
      LongLoopStart(m);
    } else {
      LongLoopRound(m, i - 1);
      assert Byte(m, 5 + 2 * (i - 1), OP_NIL) && Byte(m, 6 + 2 * (i - 1), OP_POP);
      ThenNilPop(m, 5 + 2 * (i - 1));
    }
  }

  /** The loop's code, as far as its run needs it. */
  predicate LongLoop(m: Vm) {
    && |m.code| == 65540
    && m.code[0] == 3 && m.code[1] == 32 && m.code[2] == 255 && m.code[3] == 254 && m.code[4] == 6
    && (forall i :: 0 <= i < PER_ROUND ==> m.code[5 + 2 * i] == OP_NIL && m.code[6 + 2 * i] == OP_POP)
    && m.code[65535] == 33 && m.code[65536] == 0 && m.code[65537] == 2 && m.code[65538] == 6 && m.code[65539] == 49
  }

  lemma ThenEnter(m: Vm)
    requires LongLoop(m) && Reached(m, R(1, [Bool(true)], []))
    ensures Reached(m, R(4, [Bool(true)], []))
  {
    hide Vm.Run, Reached;
    Then(m, R(1, [Bool(true)], []));
  }

  /** A jump back that is too far is compiled without an error: the program loops forever,
      and the machine jumps into the operand of its own jump and reads past the code. */
  lemma LongLoopMiscompiled(P: Prims)
    ensures SupportedList([LONG_LOOP]) && !GenProgram([LONG_LOOP]).s.err
    ensures ProgramDiverges(P, [LONG_LOOP])
    ensures Reached(Load(P, [LONG_LOOP], true), Wild)
  {
    hide Exec, GenProgram, Supported, NATIVES, Reached;
    assert [LONG_LOOP][1..] == [];
    LongLoopDiverges(P, 0);
    forall fuel: nat ensures ExecProgram(P, [LONG_LOOP], fuel) == OutOfFuel {
      LongLoopDiverges(P, fuel);
    }
    LongLoopCode();
    LongLoopEnds(Load(P, [LONG_LOOP], true));
  }

  lemma LongLoopEnds(m: Vm)
    requires LongLoop(m)
    ensures Reached(m, Wild)
  {
    hide Reached, NATIVES;
    LongLoopRound(m, PER_ROUND);
    ThenJump(m, R(65535, [], []), R(65536, [], []), OP_JUMP_BACK, 2);
    Then(m, R(65536, [], []));
    Then(m, R(65537, [], []));
  }
}
