/** Compiled statements do what the statement means. */
module StmtCorrect {
  import opened Wrappers
  import opened Values
  import opened Bytecode
  import opened Ast
  import opened Semantics
  import opened CodeGen
  import opened Machine
  import opened ExprCorrect

  // ----- alignment of slots with the stack -----

  /** `s`, compiled at this depth, leaves a value on the stack: SET_GLOBAL only peeks. */
  predicate Leaves(s: Stmt, depth: nat)
    decreases s, 1
  {
    depth == 0 && (s.Let? || s.Function? || (s.While? && s.body.Block? && LeavesAny(s.body.stmts, depth)))
  }

  predicate LeavesAny(ss: seq<Stmt>, depth: nat)
    decreases ss, 0
  {
    ss != [] && (Leaves(ss[0], depth) || LeavesAny(ss[1..], depth))
  }

  /** No declaration stands directly in `ss`. */
  predicate NoDeclaration(ss: seq<Stmt>) {
    forall i :: 0 <= i < |ss| ==> !ss[i].Let? && !ss[i].Function?
  }

  /** The stack discipline of the compiled code holds for `s`. `dirty`: a value may
      have been left on the stack. `scoped`: some block variable is in scope.
      - No block variable is declared on top of a value left behind.
      - No loop body directly declares a block variable.
      - No `if` without `else` runs while a block variable is in scope. */
  predicate Aligned(s: Stmt, depth: nat, dirty: bool, scoped: bool)
    decreases s, 1
  {
    match s
    case Let(name, _) => depth > 0 ==> !dirty && |name| <= MAX_NAME
    case If(_, t, e) =>
      && Aligned(t, depth, dirty, scoped)
      && (if e.Some? then Aligned(e.value, depth, dirty, scoped) else !scoped)
    case While(_, b) =>
      && b.Block?
      && (depth > 0 ==> NoDeclaration(b.stmts))
      && AlignedList(b.stmts, depth, dirty || LeavesAny(b.stmts, depth), scoped)
    case For(name, _, _, b) =>
      && !dirty && |name| <= MAX_NAME
      && b.Block? && NoDeclaration(b.stmts)
      && AlignedList(b.stmts, depth + 1, false, true)
    case Block(ss) => AlignedList(ss, depth + 1, dirty, scoped)
    case Function(_, _, _, _) => depth == 0
    case _ => true
  }

  predicate AlignedList(ss: seq<Stmt>, depth: nat, dirty: bool, scoped: bool)
    decreases ss, 0
  {
    ss == [] || (
      && Aligned(ss[0], depth, dirty, scoped)
      && AlignedList(ss[1..], depth, dirty || Leaves(ss[0], depth), scoped || Scopes(ss[0], depth)))
  }

  /** `s` puts a block variable into scope for the statements after it. */
  predicate Scopes(s: Stmt, depth: nat) {
    depth > 0 && s.Let?
  }

  /** Every `if` has an `else`. */
  predicate Balanced(s: Stmt)
    decreases s, 1
  {
    match s
    case If(_, t, e) => e.Some? && Balanced(t) && Balanced(e.value)
    case While(_, b) => Balanced(b)
    case For(_, _, _, b) => Balanced(b)
    case Block(ss) => BalancedList(ss)
    case _ => true
  }

  predicate BalancedList(ss: seq<Stmt>)
    decreases ss, 0
  {
    ss == [] || (Balanced(ss[0]) && BalancedList(ss[1..]))
  }

  // ----- the compiler's table of block variables -----

  predicate Within(locals: seq<Local>, depth: int) {
    forall i :: 0 <= i < |locals| ==> locals[i].depth <= depth
  }

  /** `after` is `before` plus variables declared at exactly this depth. */
  predicate Grows(before: seq<Local>, after: seq<Local>, depth: int) {
    before <= after && forall i :: |before| <= i < |after| ==> after[i].depth == depth
  }

  lemma {:induction false} CountAboveGrown(before: seq<Local>, after: seq<Local>, depth: int)
    requires Within(before, depth) && Grows(before, after, depth + 1)
    ensures CountAbove(after, depth) == |after| - |before|
    decreases |after|
  {
    if |after| > |before| {
      CountAboveGrown(before, after[..|after| - 1], depth);
    }
  }

  lemma GrowsTrans(a: seq<Local>, b: seq<Local>, c: seq<Local>, depth: int)
    requires Grows(a, b, depth) && Grows(b, c, depth)
    ensures Grows(a, c, depth)
  {
  }

  lemma EndScopeRestores(g: Emitted, before: seq<Local>, depth: int)
    requires Within(before, depth) && Grows(before, g.s.locals, depth + 1)
    ensures EndScope(g, depth) == Emitted(g.code + Pops(|g.s.locals| - |before|), g.s.(locals := before))
  {
    CountAboveGrown(before, g.s.locals, depth);
  }

  lemma {:induction false} GenStmtStatic(s: Stmt, depth: nat, st: Static)
    requires Within(st.locals, depth)
    ensures Extends(st, GenStmt(s, depth, st).s)
    ensures Grows(st.locals, GenStmt(s, depth, st).s.locals, depth)
    decreases s, 1
  {
    hide GenExpr, GenForLoop, Forward, Backward;
    match s
    case Let(_, init) => if init.Some? { GenExprStatic(init.value, st); }
    case If(c, t, e) =>
      GenExprStatic(c, st);
      GenStmtStatic(t, depth, GenExpr(c, st).s);
      if e.Some? {
        var h := GenStmt(t, depth, GenExpr(c, st).s);
        var hs := TooFar(h.s, 1 + |h.code| + 3 > 0xffff);
        GenStmtStatic(e.value, depth, hs);
        GrowsTrans(st.locals, h.s.locals, GenStmt(e.value, depth, hs).s.locals, depth);
      }
    case While(c, b) =>
      GenExprStatic(c, st);
      GenBodyStatic(b, depth, GenExpr(c, st).s);
    case For(_, _, _, _) => GenForStatic(s, depth, st);
    case Block(ss) =>
      GenStmtsStatic(ss, depth + 1, st);
      EndScopeRestores(GenStmts(ss, depth + 1, st), st.locals, depth);
    case Return(r) => if r.Some? { GenExprStatic(r.value, st); }
    case Print(e) => GenExprStatic(e, st);
    case ExprStmt(e) => GenExprStatic(e, st);
    case _ =>
  }

  lemma {:induction false} GenForStatic(s: Stmt, depth: nat, st: Static)
    requires s.For? && Within(st.locals, depth)
    ensures Extends(st, GenStmt(s, depth, st).s) && GenStmt(s, depth, st).s.locals == st.locals
    decreases s, 0
  {
    hide GenExpr, GenForLoop;
    var g := GenExpr(s.start, st);
    GenExprStatic(s.start, st);
    var (slot, s1) := AddLocal(g.s, s.name, depth + 1);
    GenForLoopStatic(s.end, s.body, slot, depth + 1, s1);
    var h := GenForLoop(s.end, s.body, slot, depth + 1, s1);
    GrowsTrans(st.locals, s1.locals, h.s.locals, depth + 1);
    EndScopeRestores(Emitted(g.code + h.code, h.s), st.locals, depth);
  }

  lemma {:induction false} GenForLoopStatic(end: Expr, b: Stmt, slot: byte, depth: nat, st: Static)
    requires Within(st.locals, depth)
    ensures Extends(st, GenForLoop(end, b, slot, depth, st).s)
    ensures Grows(st.locals, GenForLoop(end, b, slot, depth, st).s.locals, depth)
    decreases b, 3
  {
    hide GenExpr, GenBody, Forward, Backward;
    GenExprStatic(end, st);
    GenBodyStatic(b, depth, GenExpr(end, st).s);
  }

  lemma {:induction false} GenBodyStatic(b: Stmt, depth: nat, st: Static)
    requires Within(st.locals, depth)
    ensures Extends(st, GenBody(b, depth, st).s)
    ensures Grows(st.locals, GenBody(b, depth, st).s.locals, depth)
    decreases b, 2
  {
    if b.Block? {
      GenStmtsStatic(b.stmts, depth, st);
    } else {
      GenStmtStatic(b, depth, st);
    }
  }

  lemma {:induction false} GenStmtsStatic(ss: seq<Stmt>, depth: nat, st: Static)
    requires Within(st.locals, depth)
    ensures Extends(st, GenStmts(ss, depth, st).s)
    ensures Grows(st.locals, GenStmts(ss, depth, st).s.locals, depth)
    decreases ss, 0
  {
    if ss != [] {
      var g := GenStmt(ss[0], depth, st);
      GenStmtStatic(ss[0], depth, st);
      GenStmtsStatic(ss[1..], depth, g.s);
      GrowsTrans(st.locals, g.s.locals, GenStmts(ss[1..], depth, g.s).s.locals, depth);
    }
  }

  /** An aligned statement that declares no block variable leaves the table alone. */
  lemma {:induction false} SameLocals(s: Stmt, depth: nat, dirty: bool, scoped: bool, st: Static)
    requires Within(st.locals, depth) && Supported(s) && Aligned(s, depth, dirty, scoped)
    requires depth > 0 ==> !s.Let?
    ensures GenStmt(s, depth, st).s.locals == st.locals
    decreases s, 1
  {
    hide GenExpr, GenForLoop, Forward, Backward;
    match s
    case Let(_, init) => if init.Some? { GenExprStatic(init.value, st); }
    case If(c, t, e) =>
      GenExprStatic(c, st);
      SameLocals(t, depth, dirty, scoped, GenExpr(c, st).s);
      if e.Some? {
        var h := GenStmt(t, depth, GenExpr(c, st).s);
        SameLocals(e.value, depth, dirty, scoped, TooFar(h.s, 1 + |h.code| + 3 > 0xffff));
      }
    case While(c, b) =>
      GenExprStatic(c, st);
      SameLocalsList(b.stmts, depth, dirty || LeavesAny(b.stmts, depth), scoped, GenExpr(c, st).s);
    case For(_, _, _, _) => GenForStatic(s, depth, st);
    case Block(ss) =>
      GenStmtsStatic(ss, depth + 1, st);
      EndScopeRestores(GenStmts(ss, depth + 1, st), st.locals, depth);
    case Return(r) => if r.Some? { GenExprStatic(r.value, st); }
    case Print(e) => GenExprStatic(e, st);
    case ExprStmt(e) => GenExprStatic(e, st);
    case _ =>
  }

  lemma {:induction false} SameLocalsList(ss: seq<Stmt>, depth: nat, dirty: bool, scoped: bool, st: Static)
    requires Within(st.locals, depth) && SupportedList(ss) && AlignedList(ss, depth, dirty, scoped)
    requires depth > 0 ==> NoDeclaration(ss)
    ensures GenStmts(ss, depth, st).s.locals == st.locals
    decreases ss, 0
  {
    if ss != [] {
      SameLocals(ss[0], depth, dirty, scoped, st);
      SameLocalsList(ss[1..], depth, dirty || Leaves(ss[0], depth), scoped ||
        Scopes(ss[0], depth), GenStmt(ss[0], depth, st).s);
    }
  }

  // ----- single instructions -----

  lemma SimPop(m: Vm, pc: int, residue: seq<Value>, st: State, v: Value)
    requires At(m.code, pc, [OP_POP]) && |residue| + |st.vals| < STACK_MAX
    ensures m.Strict(1, Config(pc, residue, st, [v])) == Config(pc + 1, residue, st, [])
  {
    var c := Config(pc, residue, st, [v]);
    assert m.code[pc..pc + 1][0] == OP_POP;
    assert Vm.Popped(c.stack) == residue + st.vals == residue + st.vals + [];
    assert m.Strict(1, c) == m.StrictStep(c);
  }

  lemma SimPrint(m: Vm, pc: int, residue: seq<Value>, st: State, v: Value)
    requires At(m.code, pc, [OP_PRINT]) && |residue| + |st.vals| < STACK_MAX
    ensures m.Strict(1, Config(pc, residue, st, [v])) ==
            Config(pc + 1, residue, st.(out := st.out + [ByStatement(v)]), [])
  {
    var c := Config(pc, residue, st, [v]);
    assert m.code[pc..pc + 1][0] == OP_PRINT;
    assert Vm.Popped(c.stack) == residue + st.vals == residue + st.vals + [];
    assert m.Strict(1, c) == m.StrictStep(c);
  }

  lemma StepStop(m: Vm, c: Conf, op: byte)
    requires c.Running? && At(m.code, c.pc, [op]) && |c.stack| <= STACK_MAX
    requires op == OP_RETURN || op == OP_HALT
    ensures m.Strict(1, c) == Halted(Ok, c.globals, c.out)
  {
    assert m.code[c.pc..c.pc + 1][0] == op;
    assert m.Strict(1, c) == m.StrictStep(c);
  }

  lemma SimJump(m: Vm, pc: int, skip: nat, residue: seq<Value>, st: State)
    requires At(m.code, pc, Forward(OP_JUMP, skip)) && skip <= 0xffff
    requires |residue| + |st.vals| <= STACK_MAX
    ensures m.Strict(1, Config(pc, residue, st, [])) == Config(pc + 3 + skip, residue, st, [])
  {
    hide Hi, Lo, Short;
    var c := Config(pc, residue, st, []);
    var g := m.code[pc..pc + 3];
    assert g[0] == OP_JUMP && g[1] == Hi(skip) && g[2] == Lo(skip);
    ShortOf(skip);
    assert m.Strict(1, c) == m.StrictStep(c);
  }

  lemma SimJumpBack(m: Vm, pc: int, skip: nat, residue: seq<Value>, st: State)
    requires At(m.code, pc, Backward(skip)) && skip <= 0xffff
    requires |residue| + |st.vals| <= STACK_MAX
    ensures m.Strict(1, Config(pc, residue, st, [])) == Config(pc + 3 - skip, residue, st, [])
  {
    hide Hi, Lo, Short;
    var c := Config(pc, residue, st, []);
    var g := m.code[pc..pc + 3];
    assert g[0] == OP_JUMP_BACK && g[1] == Hi(skip) && g[2] == Lo(skip);
    ShortOf(skip);
    assert m.Strict(1, c) == m.StrictStep(c);
  }

  lemma SimBranch(m: Vm, pc: int, skip: nat, residue: seq<Value>, st: State, v: Value)
    requires At(m.code, pc, Forward(OP_JUMP_IF_FALSE, skip)) && skip <= 0xffff
    requires |residue| + |st.vals| < STACK_MAX
    ensures m.Strict(1, Config(pc, residue, st, [v])) ==
            Config(if Falsy(v) then pc + 3 + skip else pc + 3, residue, st, [v])
  {
    hide Hi, Lo, Short;
    var c := Config(pc, residue, st, [v]);
    var g := m.code[pc..pc + 3];
    assert g[0] == OP_JUMP_IF_FALSE && g[1] == Hi(skip) && g[2] == Lo(skip);
    ShortOf(skip);
    assert Vm.Top(c.stack) == v;
    assert m.Strict(1, c) == m.StrictStep(c);
  }

  /** The test of a condition: both ways out pop it. */
  lemma SimTest(m: Vm, pc: int, skip: nat, residue: seq<Value>, st: State, v: Value)
    requires At(m.code, pc, Forward(OP_JUMP_IF_FALSE, skip)) && skip <= 0xffff
    requires At(m.code, pc + 3, [OP_POP]) && At(m.code, pc + 3 + skip, [OP_POP])
    requires |residue| + |st.vals| < STACK_MAX
    ensures m.Strict(2, Config(pc, residue, st, [v])) ==
            Config(if Falsy(v) then pc + 3 + skip + 1 else pc + 4, residue, st, [])
  {
    hide Vm.Strict, Forward;
    SimBranch(m, pc, skip, residue, st, v);
    SimPop(m, if Falsy(v) then pc + 3 + skip else pc + 3, residue, st, v);
    m.StrictAdd(1, 1, Config(pc, residue, st, [v]));
  }

  function Dropped(residue: seq<Value>): seq<Value> {
    if residue == [] then [] else residue[..|residue| - 1]
  }

  /** The pop that an `if` without `else` performs once too often. */
  lemma SimDrop(m: Vm, pc: int, residue: seq<Value>, st: State)
    requires At(m.code, pc, [OP_POP]) && st.vals == [] && m.tolerant && |residue| <= STACK_MAX
    ensures m.Strict(1, Config(pc, residue, st, [])) == Config(pc + 1, Dropped(residue), DropLeft(Next(st)).st, [])
  {
    var c := Config(pc, residue, st, []);
    assert m.code[pc..pc + 1][0] == OP_POP;
    assert c.stack == residue && Dropped(residue) + [] + [] == Dropped(residue);
    assert m.Strict(1, c) == m.StrictStep(c);
  }

  // ----- statements -----

  /** Where running a statement's code ends up; `s` is the compiler's state after it. */
  predicate Lands(m: Vm, n: nat, c: Conf, o: Outcome, fuel: nat, pc: int, s: Static, residue: seq<Value>) {
    match o
    case Next(st) => Matches(s, st, residue) && m.Strict(n, c) == Config(pc, residue, st, [])
    case Stop(ending, globals, out) => m.Strict(n, c) == Halted(ending, globals, out)
    case Deep => true
    case OutOfFuel => n >= fuel && m.Strict(n, c).Running?
  }

  /** What a statement's code may rely on. */
  predicate Ready(m: Vm, depth: nat, dirty: bool, scoped: bool, s: Static, st: State, residue: seq<Value>) {
    && |m.code| <= 0xffff
    && Matches(s, st, residue)
    && Within(s.locals, depth)
    && (depth == 0 || !scoped ==> s.locals == [])
    && (!dirty ==> residue == [])
  }

  /** What is known before a stretch of machine steps carries over to after it. */
  lemma Prepend(m: Vm, k: nat, c: Conf, c1: Conf, n: nat, o: Outcome, fuel: nat, pc: int, s: Static,
      residue: seq<Value>)
    requires m.Strict(k, c) == c1 && Lands(m, n, c1, o, fuel, pc, s, residue)
    ensures Lands(m, k + n, c, o, fuel, pc, s, residue)
  {
    hide Vm.Strict, Matches;
    m.StrictAdd(k, n, c);
  }

  /** One statement's code after another's. Going round a loop costs a unit of fuel
      and at least one step. */
  lemma Compose(m: Vm, c: Conf, fuel: nat,
                n1: nat, o1: Outcome, pc1: int, s1: Static, r1: seq<Value>,
                n2: nat, o2: Outcome, fuel2: nat, pc2: int, s2: Static, r2: seq<Value>)
    requires Lands(m, n1, c, o1, fuel, pc1, s1, r1)
    requires o1.Next? && Lands(m, n2, Config(pc1, r1, o1.st, []), o2, fuel2, pc2, s2, r2)
    requires fuel <= n1 + fuel2
    ensures Lands(m, n1 + n2, c, o2, fuel, pc2, s2, r2)
  {
    hide Vm.Strict, Matches;
    m.StrictAdd(n1, n2, c);
  }

  /** Machine steps after a statement that ended normally. */
  lemma Append(m: Vm, c: Conf, fuel: nat, n: nat, o: Outcome, pc1: int, s1: Static, r1: seq<Value>,
               k: nat, st2: State, pc2: int, s2: Static, r2: seq<Value>)
    requires Lands(m, n, c, o, fuel, pc1, s1, r1) && o.Next?
    requires m.Strict(k, Config(pc1, r1, o.st, [])) == Config(pc2, r2, st2, []) && Matches(s2, st2, r2)
    ensures Lands(m, n + k, c, Next(st2), fuel, pc2, s2, r2)
  {
    hide Vm.Strict, Matches;
    m.StrictAdd(n, k, c);
  }

  /** An outcome that is not `Next` says nothing about where the code ends. */
  lemma Elsewhere(m: Vm, n: nat, c: Conf, o: Outcome, fuel: nat, pc1: int, s1: Static, r1: seq<Value>, pc2: int,
      s2: Static, r2: seq<Value>)
    requires Lands(m, n, c, o, fuel, pc1, s1, r1) && !o.Next?
    ensures Lands(m, n, c, o, fuel, pc2, s2, r2)
  {
  }

  lemma LandsNext(m: Vm, n: nat, c: Conf, fuel: nat, pc: int, s: Static, st: State, residue: seq<Value>)
    requires m.Strict(n, c) == Config(pc, residue, st, []) && Matches(s, st, residue)
    ensures Lands(m, n, c, Next(st), fuel, pc, s, residue)
  {
  }

  lemma LandsOutOfFuel(m: Vm, c: Conf, pc: int, s: Static, residue: seq<Value>)
    requires c.Running?
    ensures Lands(m, 0, c, OutOfFuel, 0, pc, s, residue)
  {
  }

  lemma NextMatches(m: Vm, n: nat, c: Conf, o: Outcome, fuel: nat, pc: int, s: Static, residue: seq<Value>)
    requires Lands(m, n, c, o, fuel, pc, s, residue) && o.Next?
    ensures Matches(s, o.st, residue)
  {
  }

  lemma SimOption(m: Vm, e: Option<Expr>, s: Static, pc: int, st: State, residue: seq<Value>)
    returns (n: nat)
    requires SupportedOption(e) && Matches(s, st, residue)
    requires Placed(m, pc, GenOption(e, s))
    requires |residue| + |st.vals| + NeedOption(e) <= STACK_MAX
    ensures Reaches(m, n, Config(pc, residue, st, []), EvalOption(m.prims, e, st), pc + |GenOption(e, s).code|,
      residue, [])
  {
    hide Vm.Strict, Eval, GenExpr, Need, SupportedExpr;
    if e.Some? {
      n := SimExpr(m, e.value, s, pc, st, residue, []);
    } else {
      SimPush(m, OP_NIL, Nil, pc, st, residue, []);
      n := 1;
    }
  }

  lemma OptionStatic(e: Option<Expr>, s: Static)
    ensures Extends(s, GenOption(e, s).s) && GenOption(e, s).s.locals == s.locals
  {
    if e.Some? {
      GenExprStatic(e.value, s);
    }
  }

  /** A value that a top-level declaration has stored stays on the stack. */
  lemma SimSetGlobal(m: Vm, name: string, v: Value, s: Static, pc: int, st: State, residue: seq<Value>)
    requires st.vals == [] && |residue| < STACK_MAX
    requires Placed(m, pc, WithConstant(OP_SET_GLOBAL, Str(name), s))
    ensures m.Strict(1, Config(pc, residue, st, [v])) == Config(pc + 2, residue + [v], Declare(name, v, 0, st), [])
  {
    var c := Config(pc, residue, st, [v]);
    assert c.stack == residue + [v] == residue + [v] + [] + [];
    StepSetGlobal(m, c, |s.constants|, name);
  }

  lemma NamesOfPlus(locals: seq<Local>, l: Local)
    ensures NamesOf(locals + [l]) == NamesOf(locals) + [l.name]
  {
  }

  lemma {:induction false} SimLet(m: Vm, s: Stmt, depth: nat, dirty: bool, scoped: bool, cs: Static, pc: int,
      st: State, residue: seq<Value>, fuel: nat)
    returns (n: nat, left: seq<Value>)
    requires s.Let?
    requires Supported(s) && Aligned(s, depth, dirty, scoped) && (m.tolerant || Balanced(s))
    requires Ready(m, depth, dirty, scoped, cs, st, residue)
    requires Placed(m, pc, GenStmt(s, depth, cs))
    ensures Lands(m, n, Config(pc, residue, st, []), Exec(m.prims, s, depth, st, fuel), fuel,
                  pc + |GenStmt(s, depth, cs).code|, GenStmt(s, depth, cs).s, left)
    ensures !dirty && !Leaves(s, depth) ==> left == []
  {
    hide Vm.Strict, Eval, GenExpr, Need, SupportedExpr;
    left := residue;
    if !Room(st, NeedOption(s.init)) {
      n := 0;
      return;
    }
    var c := Config(pc, residue, st, []);
    var g := GenOption(s.init, cs);
    OptionStatic(s.init, cs);
    if depth > 0 {
      n := SimOption(m, s.init, cs, pc, st, residue);
      var r := EvalOption(m.prims, s.init, st);
      if r.EVal? {
        NamesOfPlus(cs.locals, Local(Clip(s.name), depth));
        assert residue + r.st.vals + ([] + [r.v]) == residue + (r.st.vals + [r.v]) + [];
      }
    } else {
      var h := WithConstant(OP_SET_GLOBAL, Str(s.name), g.s);
      AtSplit(m.code, pc, g.code, h.code);
      n := SimOption(m, s.init, cs, pc, st, residue);
      var r := EvalOption(m.prims, s.init, st);
      if r.EVal? {
        assert [] + [r.v] == [r.v];
        SimSetGlobal(m, s.name, r.v, g.s, pc + |g.code|, r.st, residue);
        m.StrictAdd(n, 1, c);
        n, left := n + 1, residue + [r.v];
      }
    }
  }

  lemma {:induction false} SimFunction(m: Vm, s: Stmt, depth: nat, dirty: bool, scoped: bool, cs: Static, pc: int,
      st: State, residue: seq<Value>, fuel: nat)
    returns (n: nat, left: seq<Value>)
    requires s.Function?
    requires Supported(s) && Aligned(s, depth, dirty, scoped) && (m.tolerant || Balanced(s))
    requires Ready(m, depth, dirty, scoped, cs, st, residue)
    requires Placed(m, pc, GenStmt(s, depth, cs))
    ensures Lands(m, n, Config(pc, residue, st, []), Exec(m.prims, s, depth, st, fuel), fuel,
                  pc + |GenStmt(s, depth, cs).code|, GenStmt(s, depth, cs).s, left)
    ensures !dirty && !Leaves(s, depth) ==> left == []
  {
    hide Vm.Strict;
    left := residue;
    if !Room(st, 1) {
      n := 0;
      return;
    }
    var c := Config(pc, residue, st, []);
    AtSplit(m.code, pc, [OP_NIL], WithConstant(OP_SET_GLOBAL, Str(s.name), cs).code);
    SimPush(m, OP_NIL, Nil, pc, st, residue, []);
    assert [] + [Nil] == [Nil];
    SimSetGlobal(m, s.name, Nil, cs, pc + 1, st, residue);
    m.StrictAdd(1, 1, c);
    n, left := 2, residue + [Nil];
  }

  lemma {:induction false} SimReturn(m: Vm, s: Stmt, depth: nat, dirty: bool, scoped: bool, cs: Static, pc: int,
      st: State, residue: seq<Value>, fuel: nat)
    returns (n: nat, left: seq<Value>)
    requires s.Return?
    requires Supported(s) && Aligned(s, depth, dirty, scoped) && (m.tolerant || Balanced(s))
    requires Ready(m, depth, dirty, scoped, cs, st, residue)
    requires Placed(m, pc, GenStmt(s, depth, cs))
    ensures Lands(m, n, Config(pc, residue, st, []), Exec(m.prims, s, depth, st, fuel), fuel,
                  pc + |GenStmt(s, depth, cs).code|, GenStmt(s, depth, cs).s, left)
    ensures !dirty && !Leaves(s, depth) ==> left == []
  {
    hide Vm.Strict, Eval, GenExpr, Need, SupportedExpr;
    left := residue;
    if !Room(st, NeedOption(s.result)) {
      n := 0;
      return;
    }
    var c := Config(pc, residue, st, []);
    var g := GenOption(s.result, cs);
    AtSplit(m.code, pc, g.code, [OP_RETURN]);
    n := SimOption(m, s.result, cs, pc, st, residue);
    var r := EvalOption(m.prims, s.result, st);
    if r.EVal? {
      NeedOptionPositive(s.result);
      StepStop(m, Config(pc + |g.code|, residue, r.st, [] + [r.v]), OP_RETURN);
      m.StrictAdd(n, 1, c);
      n := n + 1;
    }
  }

  lemma NeedOptionPositive(e: Option<Expr>)
    ensures NeedOption(e) >= 1
  {
  }

  function Shown(s: Stmt): Expr
    requires s.Print? || s.ExprStmt?
  {
    if s.Print? then s.shown else s.expr
  }

  /** What a print or expression statement does with the value of its expression. */
  function AfterValue(s: Stmt, v: Value, st: State): State {
    if s.Print? then st.(out := st.out + [ByStatement(v)]) else st
  }

  lemma SimpleParts(P: Prims, s: Stmt, depth: nat, cs: Static, st: State, fuel: nat)
    requires s.Print? || s.ExprStmt?
    requires Supported(s) && WellFormed(st)
    ensures SupportedExpr(Shown(s))
    ensures
      var g := GenExpr(Shown(s), cs);
      GenStmt(s, depth, cs) == Emitted(g.code + [if s.Print? then OP_PRINT else OP_POP], g.s)
    ensures Exec(P, s, depth, st, fuel) ==
      if !Room(st, Need(Shown(s))) then Deep
      else
        var r := Eval(P, Shown(s), st);
        if r.EFail? then Failed(r.ending, r.failed) else Next(AfterValue(s, r.v, r.st))
  {
    hide Eval, GenExpr, Need, SupportedExpr;
  }

  lemma RoomMeans(st: State, e: Expr)
    requires Room(st, Need(e))
    ensures st.left + |st.vals| + Need(e) <= STACK_MAX
  {
  }

  lemma SimConsume(m: Vm, s: Stmt, pc: int, residue: seq<Value>, st: State, v: Value)
    requires At(m.code, pc, [if s.Print? then OP_PRINT else OP_POP]) && |residue| + |st.vals| < STACK_MAX
    ensures m.Strict(1, Config(pc, residue, st, [] + [v])) == Config(pc + 1, residue, AfterValue(s, v, st), [])
  {
    assert [] + [v] == [v];
    if s.Print? {
      SimPrint(m, pc, residue, st, v);
    } else {
      SimPop(m, pc, residue, st, v);
    }
  }

  lemma {:induction false} SimSimple(m: Vm, s: Stmt, depth: nat, dirty: bool, scoped: bool, cs: Static, pc: int,
      st: State, residue: seq<Value>, fuel: nat)
    returns (n: nat, left: seq<Value>)
    requires s.Print? || s.ExprStmt?
    requires Supported(s) && Aligned(s, depth, dirty, scoped) && (m.tolerant || Balanced(s))
    requires Ready(m, depth, dirty, scoped, cs, st, residue)
    requires Placed(m, pc, GenStmt(s, depth, cs))
    ensures Lands(m, n, Config(pc, residue, st, []), Exec(m.prims, s, depth, st, fuel), fuel,
                  pc + |GenStmt(s, depth, cs).code|, GenStmt(s, depth, cs).s, left)
    ensures !dirty && !Leaves(s, depth) ==> left == []
  {
    hide Vm.Strict, NamesOf, Exec, ExecList, GenStmt, GenStmts, Supported, SupportedList, Aligned, AlignedList,
         Balanced, BalancedList, Leaves, LeavesAny, Eval, GenExpr, Need, SupportedExpr, Forward, Lands, Config,
         Shown, Room;
    SimpleParts(m.prims, s, depth, cs, st, fuel);
    var e := Shown(s);
    var g := GenExpr(e, cs);
    var c, end, r := Config(pc, residue, st, []), pc + |g.code| + 1, Eval(m.prims, e, st);
    left := residue;
    AtSplit(m.code, pc, g.code, [if s.Print? then OP_PRINT else OP_POP]);
    GenExprStatic(e, cs);
    n := 0;
    if !Room(st, Need(e)) {
      LandsDeep(m, c, fuel, end, g.s, residue);
    } else {
      RoomMeans(st, e);
      n := SimExpr(m, e, cs, pc, st, residue, []);
      if r.EFail? {
        LandsStop(m, n, c, r.ending, r.failed, fuel, end, g.s, residue);
      } else {
        SimConsume(m, s, pc + |g.code|, residue, r.st, r.v);
        m.StrictAdd(n, 1, c);
        n := n + 1;
        LandsNext(m, n, c, fuel, end, g.s, AfterValue(s, r.v, r.st), residue);
      }
    }
  }

  lemma {:induction false} SimStmt(m: Vm, s: Stmt, depth: nat, dirty: bool, scoped: bool, cs: Static, pc: int,
      st: State, residue: seq<Value>, fuel: nat)
    returns (n: nat, left: seq<Value>)
    requires Supported(s) && Aligned(s, depth, dirty, scoped) && (m.tolerant || Balanced(s))
    requires Ready(m, depth, dirty, scoped, cs, st, residue)
    requires Placed(m, pc, GenStmt(s, depth, cs))
    ensures Lands(m, n, Config(pc, residue, st, []), Exec(m.prims, s, depth, st, fuel), fuel,
                  pc + |GenStmt(s, depth, cs).code|, GenStmt(s, depth, cs).s, left)
    ensures !dirty && !Leaves(s, depth) ==> left == []
    decreases fuel, s, 2
  {
    hide Vm.Strict, Exec, GenStmt, Aligned, Supported, Leaves;
    match s
    case Let(_, _) => n, left := SimLet(m, s, depth, dirty, scoped, cs, pc, st, residue, fuel);
    case If(_, _, _) => n, left := SimIf(m, s, depth, dirty, scoped, cs, pc, st, residue, fuel);
    case While(_, _) => n, left := SimWhile(m, s, depth, dirty, scoped, cs, pc, st, residue, fuel);
    case For(_, _, _, _) => n, left := SimFor(m, s, depth, dirty, scoped, cs, pc, st, residue, fuel);
    case Block(_) => n, left := SimBlock(m, s, depth, dirty, scoped, cs, pc, st, residue, fuel);
    case Function(_, _, _, _) => n, left := SimFunction(m, s, depth, dirty, scoped, cs, pc, st, residue, fuel);
    case Return(_) => n, left := SimReturn(m, s, depth, dirty, scoped, cs, pc, st, residue, fuel);
    case Print(_) => n, left := SimSimple(m, s, depth, dirty, scoped, cs, pc, st, residue, fuel);
    case ExprStmt(_) => n, left := SimSimple(m, s, depth, dirty, scoped, cs, pc, st, residue, fuel);
    case _ => NotSupported(s);
  }

  lemma NotSupported(s: Stmt)
    requires Supported(s)
    ensures !s.ForIn? && !s.Import? && !s.Class? && !s.Server? && !s.Respond?
  {
  }

  lemma EmptyList(m: Vm, depth: nat, cs: Static, pc: int, st: State, residue: seq<Value>, fuel: nat)
    requires Matches(cs, st, residue)
    ensures GenStmts([], depth, cs) == Emitted([], cs)
    ensures Lands(m, 0, Config(pc, residue, st, []), ExecList(m.prims, [], depth, st, fuel), fuel, pc, cs, residue)
  {
  }

  lemma ListParts(P: Prims, ss: seq<Stmt>, depth: nat, dirty: bool, scoped: bool, cs: Static, st: State, fuel: nat)
    requires ss != [] && SupportedList(ss) && AlignedList(ss, depth, dirty, scoped) && WellFormed(st)
    ensures Supported(ss[0]) && SupportedList(ss[1..])
    ensures Aligned(ss[0], depth, dirty, scoped)
    ensures AlignedList(ss[1..], depth, dirty || Leaves(ss[0], depth), scoped || Scopes(ss[0], depth))
    ensures BalancedList(ss) ==> Balanced(ss[0]) && BalancedList(ss[1..])
    ensures LeavesAny(ss, depth) == (Leaves(ss[0], depth) || LeavesAny(ss[1..], depth))
    ensures
      var g := GenStmt(ss[0], depth, cs);
      var h := GenStmts(ss[1..], depth, g.s);
      GenStmts(ss, depth, cs) == Emitted(g.code + h.code, h.s)
    ensures ExecList(P, ss, depth, st, fuel) ==
      var o := Exec(P, ss[0], depth, st, fuel);
      if o.Next? then ExecList(P, ss[1..], depth, o.st, fuel) else o
  {
    hide Exec, GenStmt, Supported, Aligned, Balanced, Leaves;
  }

  lemma {:induction false} SimList(m: Vm, ss: seq<Stmt>, depth: nat, dirty: bool, scoped: bool, cs: Static, pc: int,
      st: State, residue: seq<Value>, fuel: nat)
    returns (n: nat, left: seq<Value>)
    requires SupportedList(ss) && AlignedList(ss, depth, dirty, scoped) && (m.tolerant || BalancedList(ss))
    requires Ready(m, depth, dirty, scoped, cs, st, residue)
    requires Placed(m, pc, GenStmts(ss, depth, cs))
    ensures Lands(m, n, Config(pc, residue, st, []), ExecList(m.prims, ss, depth, st, fuel), fuel,
                  pc + |GenStmts(ss, depth, cs).code|, GenStmts(ss, depth, cs).s, left)
    ensures !dirty && !LeavesAny(ss, depth) ==> left == []
    decreases fuel, ss, 0
  {
    hide Vm.Strict, NamesOf, Exec, ExecList, GenStmt, GenStmts, Supported, SupportedList, Aligned, AlignedList,
         Balanced, BalancedList, Leaves, LeavesAny, Lands, Config;
    var c := Config(pc, residue, st, []);
    if ss == [] {
      n, left := 0, residue;
      EmptyList(m, depth, cs, pc, st, residue, fuel);
      return;
    }
    ListParts(m.prims, ss, depth, dirty, scoped, cs, st, fuel);
    var g := GenStmt(ss[0], depth, cs);
    var h := GenStmts(ss[1..], depth, g.s);
    var end := pc + |g.code| + |h.code|;
    AtSplit(m.code, pc, g.code, h.code);
    GenStmtStatic(ss[0], depth, cs);
    GenStmtsStatic(ss[1..], depth, g.s);
    n, left := SimStmt(m, ss[0], depth, dirty, scoped, cs, pc, st, residue, fuel);
    var o := Exec(m.prims, ss[0], depth, st, fuel);
    if o.Next? {
      NextMatches(m, n, c, o, fuel, pc + |g.code|, g.s, left);
      if !Scopes(ss[0], depth) {
        SameLocals(ss[0], depth, dirty, scoped, cs);
      }
      var n1, r1 := SimList(m, ss[1..], depth, dirty || Leaves(ss[0], depth), scoped ||
        Scopes(ss[0], depth), g.s, pc + |g.code|, o.st, left, fuel);
      Compose(m, c, fuel, n, o, pc + |g.code|, g.s, left, n1, ExecList(m.prims, ss[1..], depth, o.st, fuel), fuel,
        end, h.s, r1);
      n, left := n + n1, r1;
    } else {
      Elsewhere(m, n, c, o, fuel, pc + |g.code|, g.s, left, end, h.s, []);
      left := [];
    }
  }

  /** After `n` steps the condition `e` has failed, or its test has taken one of its two ways. */
  predicate Branched(m: Vm, n: nat, e: Expr, cs: Static, pc: int, skip: nat, st: State, residue: seq<Value>,
      fuel: nat, end: int, after: Static)
    requires SupportedExpr(e) && WellFormed(st)
  {
    var c, test := Config(pc, residue, st, []), pc + |GenExpr(e, cs).code|;
    match Eval(m.prims, e, st)
    case EFail(k, f) => Lands(m, n, c, Failed(k, f), fuel, end, after, residue)
    case EVal(v, st1) =>
      && n >= 2
      && Matches(cs, st1, residue)
      && m.Strict(n, c) == Config(if Falsy(v) then test + 3 + skip + 1 else test + 4, residue, st1, [])
  }

  /** Evaluating a condition and taking one of the two ways out of its test. */
  lemma SimCondition(m: Vm, e: Expr, cs: Static, pc: int, skip: nat, st: State, residue: seq<Value>, fuel: nat,
      end: int, after: Static)
    returns (n: nat)
    requires SupportedExpr(e) && Matches(cs, st, residue)
    requires Placed(m, pc, GenExpr(e, cs)) && skip <= 0xffff
    requires At(m.code, pc + |GenExpr(e, cs).code|, Forward(OP_JUMP_IF_FALSE, skip))
    requires At(m.code, pc + |GenExpr(e, cs).code| + 3, [OP_POP])
    requires At(m.code, pc + |GenExpr(e, cs).code| + 3 + skip, [OP_POP])
    ensures !Room(st, Need(e)) ==> Lands(m, n, Config(pc, residue, st, []), Deep, fuel, end, after, residue)
    ensures Room(st, Need(e)) ==> Branched(m, n, e, cs, pc, skip, st, residue, fuel, end, after)
  {
    hide Vm.Strict, Eval, GenExpr, Need, SupportedExpr;
    n := 0;
    if Room(st, Need(e)) {
      n := SimExpr(m, e, cs, pc, st, residue, []);
      var r := Eval(m.prims, e, st);
      if r.EVal? {
        assert [] + [r.v] == [r.v];
        SimTest(m, pc + |GenExpr(e, cs).code|, skip, residue, r.st, r.v);
        m.StrictAdd(n, 2, Config(pc, residue, st, []));
        n := n + 2;
      }
    }
  }

  lemma {:induction false} SimIf(m: Vm, s: Stmt, depth: nat, dirty: bool, scoped: bool, cs: Static, pc: int,
      st: State, residue: seq<Value>, fuel: nat)
    returns (n: nat, left: seq<Value>)
    requires s.If?
    requires Supported(s) && Aligned(s, depth, dirty, scoped) && (m.tolerant || Balanced(s))
    requires Ready(m, depth, dirty, scoped, cs, st, residue)
    requires Placed(m, pc, GenStmt(s, depth, cs))
    ensures Lands(m, n, Config(pc, residue, st, []), Exec(m.prims, s, depth, st, fuel), fuel,
                  pc + |GenStmt(s, depth, cs).code|, GenStmt(s, depth, cs).s, left)
    ensures !dirty && !Leaves(s, depth) ==> left == []
    decreases fuel, s, 1
  {
    if s.elseBranch.Some? {
      n, left := SimIfElse(m, s, depth, dirty, scoped, cs, pc, st, residue, fuel);
    } else {
      n, left := SimIfThen(m, s, depth, dirty, scoped, cs, pc, st, residue, fuel);
    }
  }

  lemma IfThenAligned(s: Stmt, depth: nat, dirty: bool, scoped: bool)
    requires s.If? && s.elseBranch.None?
    requires Supported(s) && Aligned(s, depth, dirty, scoped)
    ensures Supported(s.thenBranch) && s.thenBranch.Block? && Aligned(s.thenBranch, depth, dirty, scoped)
  {
    hide GenExpr, SupportedExpr, Forward;
  }

  lemma IfThenLayout(m: Vm, s: Stmt, depth: nat, dirty: bool, scoped: bool, cs: Static, pc: int)
    requires s.If? && s.elseBranch.None?
    requires Supported(s) && Aligned(s, depth, dirty, scoped) && Within(cs.locals, depth) && |m.code| <= 0xffff
    requires Placed(m, pc, GenStmt(s, depth, cs))
    ensures
      var g := GenExpr(s.cond, cs);
      var h := GenStmt(s.thenBranch, depth, g.s);
      var skip, test, all := 1 + |h.code|, pc + |g.code|, GenStmt(s, depth, cs);
      && Placed(m, pc, g) && skip <= 0xffff
      && At(m.code, test, Forward(OP_JUMP_IF_FALSE, skip))
      && At(m.code, test + 3, [OP_POP])
      && At(m.code, test + 3 + skip, [OP_POP])
      && Placed(m, test + 4, h)
      && pc + |all.code| == test + 4 + |h.code| + 1
      && all.s == h.s && g.s.locals == h.s.locals == cs.locals
  {
    hide GenExpr, GenStmt, Supported, SupportedExpr, Aligned, Forward;
    var g := GenExpr(s.cond, cs);
    var h := GenStmt(s.thenBranch, depth, g.s);
    IfThenAligned(s, depth, dirty, scoped);
    GenIfThen(s, depth, cs);
    SplitIfThen(m.code, pc, g.code, 1 + |h.code|, h.code);
    GenExprStatic(s.cond, cs);
    GenStmtStatic(s.thenBranch, depth, g.s);
    SameLocals(s.thenBranch, depth, dirty, scoped, g.s);
  }

  lemma IfThenParts(P: Prims, s: Stmt, depth: nat, dirty: bool, scoped: bool, st: State, fuel: nat)
    requires s.If? && s.elseBranch.None?
    requires Supported(s) && Aligned(s, depth, dirty, scoped) && WellFormed(st)
    ensures SupportedExpr(s.cond) && Supported(s.thenBranch) && s.thenBranch.Block?
    ensures Aligned(s.thenBranch, depth, dirty, scoped) && !scoped && !Balanced(s)
    ensures !Leaves(s.thenBranch, depth) && !Leaves(s, depth)
    ensures Exec(P, s, depth, st, fuel) ==
      if !Room(st, Need(s.cond)) then Deep
      else
        var r := Eval(P, s.cond, st);
        if r.EFail? then Failed(r.ending, r.failed)
        else if Falsy(r.v) then Next(r.st)
        else DropLeft(Exec(P, s.thenBranch, depth, r.st, fuel))
  {
    hide Eval, GenExpr, Need, SupportedExpr, Forward, Backward;
  }

  lemma IfElseAligned(s: Stmt, depth: nat, dirty: bool, scoped: bool)
    requires s.If? && s.elseBranch.Some?
    requires Supported(s) && Aligned(s, depth, dirty, scoped)
    ensures Supported(s.thenBranch) && s.thenBranch.Block? && Aligned(s.thenBranch, depth, dirty, scoped)
    ensures Supported(s.elseBranch.value) && !s.elseBranch.value.Let? &&
      Aligned(s.elseBranch.value, depth, dirty, scoped)
  {
    hide GenExpr, SupportedExpr, Forward;
  }

  /** The pieces of an `if` with `else`, as the machine finds them. */
  predicate IfElsePieces(m: Vm, pc: int, g: Emitted, h: Emitted, w: Emitted) {
    var skip, skipElse, test := 1 + |h.code| + 3, 1 + |w.code|, pc + |g.code|;
    && Placed(m, pc, g) && skip <= 0xffff && skipElse <= 0xffff
    && At(m.code, test, Forward(OP_JUMP_IF_FALSE, skip))
    && At(m.code, test + 3, [OP_POP])
    && At(m.code, test + 3 + skip, [OP_POP])
    && Placed(m, test + 4, h)
    && At(m.code, test + 4 + |h.code|, Forward(OP_JUMP, skipElse))
    && Placed(m, test + 3 + skip + 1, w)
  }

  lemma PlacedIfElse(m: Vm, pc: int, g: Emitted, h: Emitted, w: Emitted)
    requires |m.code| <= 0xffff
    requires At(m.code, pc, g.code + Forward(OP_JUMP_IF_FALSE, 1 + |h.code| + 3) + [OP_POP] + h.code
                            + Forward(OP_JUMP, 1 + |w.code|) + [OP_POP] + w.code)
    requires Extends(g.s, h.s) && Extends(h.s, w.s) && !w.s.err && w.s.constants <= m.constants
    ensures IfElsePieces(m, pc, g, h, w)
  {
    hide Forward, At;
    AtEnds(m.code, pc, g.code + Forward(OP_JUMP_IF_FALSE, 1 + |h.code| + 3) + [OP_POP] + h.code
                       + Forward(OP_JUMP, 1 + |w.code|) + [OP_POP] + w.code);
    SplitIfElse(m.code, pc, g.code, 1 + |h.code| + 3, h.code, 1 + |w.code|, w.code);
  }

  lemma IfElseLayout(m: Vm, s: Stmt, depth: nat, dirty: bool, scoped: bool, cs: Static, pc: int)
    requires s.If? && s.elseBranch.Some?
    requires Supported(s) && Aligned(s, depth, dirty, scoped) && Within(cs.locals, depth) && |m.code| <= 0xffff
    requires Placed(m, pc, GenStmt(s, depth, cs))
    ensures
      var g := GenExpr(s.cond, cs);
      var h := GenStmt(s.thenBranch, depth, g.s);
      var w := GenStmt(s.elseBranch.value, depth, h.s);
      && IfElsePieces(m, pc, g, h, w)
      && |GenStmt(s, depth, cs).code| == |g.code| + 4 + |h.code| + 4 + |w.code|
      && GenStmt(s, depth, cs).s == w.s && g.s.locals == h.s.locals == w.s.locals == cs.locals
  {
    hide GenExpr, GenStmt, Supported, SupportedExpr, Aligned, Forward, IfElsePieces;
    var g := GenExpr(s.cond, cs);
    var h := GenStmt(s.thenBranch, depth, g.s);
    var hs := TooFar(h.s, 1 + |h.code| + 3 > 0xffff);
    var w := GenStmt(s.elseBranch.value, depth, hs);
    IfElseAligned(s, depth, dirty, scoped);
    GenIfElse(s, depth, cs);
    GenExprStatic(s.cond, cs);
    GenStmtStatic(s.thenBranch, depth, g.s);
    GenStmtStatic(s.elseBranch.value, depth, hs);
    SameLocals(s.thenBranch, depth, dirty, scoped, g.s);
    SameLocals(s.elseBranch.value, depth, dirty, scoped, hs);
    assert hs == h.s;
    PlacedIfElse(m, pc, g, h, w);
  }

  lemma IfElseParts(P: Prims, s: Stmt, depth: nat, dirty: bool, scoped: bool, st: State, fuel: nat)
    requires s.If? && s.elseBranch.Some?
    requires Supported(s) && Aligned(s, depth, dirty, scoped) && WellFormed(st)
    ensures SupportedExpr(s.cond) && Supported(s.thenBranch) && s.thenBranch.Block?
    ensures Supported(s.elseBranch.value) && !s.elseBranch.value.Let?
    ensures Aligned(s.thenBranch, depth, dirty, scoped) && Aligned(s.elseBranch.value, depth, dirty, scoped)
    ensures !Leaves(s.thenBranch, depth) && !Leaves(s.elseBranch.value, depth) && !Leaves(s, depth)
    ensures Balanced(s) ==> Balanced(s.thenBranch) && Balanced(s.elseBranch.value)
    ensures Exec(P, s, depth, st, fuel) ==
      if !Room(st, Need(s.cond)) then Deep
      else
        var r := Eval(P, s.cond, st);
        if r.EFail? then Failed(r.ending, r.failed)
        else Exec(P, if Falsy(r.v) then s.elseBranch.value else s.thenBranch, depth, r.st, fuel)
  {
    hide Eval, GenExpr, Need, SupportedExpr, Forward, Backward;
  }

  lemma {:induction false} SimIfThen(m: Vm, s: Stmt, depth: nat, dirty: bool, scoped: bool, cs: Static, pc: int,
      st: State, residue: seq<Value>, fuel: nat)
    returns (n: nat, left: seq<Value>)
    requires s.If? && s.elseBranch.None?
    requires Supported(s) && Aligned(s, depth, dirty, scoped) && (m.tolerant || Balanced(s))
    requires Ready(m, depth, dirty, scoped, cs, st, residue)
    requires Placed(m, pc, GenStmt(s, depth, cs))
    ensures Lands(m, n, Config(pc, residue, st, []), Exec(m.prims, s, depth, st, fuel), fuel,
                  pc + |GenStmt(s, depth, cs).code|, GenStmt(s, depth, cs).s, left)
    ensures !dirty && !Leaves(s, depth) ==> left == []
    decreases fuel, s, 0
  {
    hide Vm.Strict, NamesOf, Exec, ExecList, GenStmt, GenStmts, Supported, SupportedList, Aligned, AlignedList,
         Balanced, BalancedList, Leaves, LeavesAny, Eval, GenExpr, Need, SupportedExpr, Forward, Lands, Config;
    IfThenParts(m.prims, s, depth, dirty, scoped, st, fuel);
    IfThenLayout(m, s, depth, dirty, scoped, cs, pc);
    var g := GenExpr(s.cond, cs);
    var h := GenStmt(s.thenBranch, depth, g.s);
    var skip, from := 1 + |h.code|, pc + |g.code| + 4;
    var c, end, r := Config(pc, residue, st, []), from + |h.code| + 1, Eval(m.prims, s.cond, st);
    left := residue;
    n := SimCondition(m, s.cond, cs, pc, skip, st, residue, fuel, end, h.s);
    if Room(st, Need(s.cond)) && r.EVal? && Falsy(r.v) {
      LandsNext(m, n, c, fuel, end, h.s, r.st, residue);
    } else if Room(st, Need(s.cond)) && r.EVal? {
      var n1, r1 := SimStmt(m, s.thenBranch, depth, dirty, scoped, g.s, from, r.st, residue, fuel);
      var o := Exec(m.prims, s.thenBranch, depth, r.st, fuel);
      Prepend(m, n, c, Config(from, residue, r.st, []), n1, o, fuel, end - 1, h.s, r1);
      n := n + n1;
      if o.Next? {
        NextMatches(m, n, c, o, fuel, end - 1, h.s, r1);
        SimDrop(m, end - 1, r1, o.st);
        left := Dropped(r1);
        Append(m, c, fuel, n, o, end - 1, h.s, r1, 1, DropLeft(Next(o.st)).st, end, h.s, left);
        n := n + 1;
      } else {
        Elsewhere(m, n, c, o, fuel, end - 1, h.s, r1, end, h.s, left);
      }
    }
  }

  lemma {:induction false} SimIfElse(m: Vm, s: Stmt, depth: nat, dirty: bool, scoped: bool, cs: Static, pc: int,
      st: State, residue: seq<Value>, fuel: nat)
    returns (n: nat, left: seq<Value>)
    requires s.If? && s.elseBranch.Some?
    requires Supported(s) && Aligned(s, depth, dirty, scoped) && (m.tolerant || Balanced(s))
    requires Ready(m, depth, dirty, scoped, cs, st, residue)
    requires Placed(m, pc, GenStmt(s, depth, cs))
    ensures Lands(m, n, Config(pc, residue, st, []), Exec(m.prims, s, depth, st, fuel), fuel,
                  pc + |GenStmt(s, depth, cs).code|, GenStmt(s, depth, cs).s, left)
    ensures !dirty && !Leaves(s, depth) ==> left == []
    decreases fuel, s, 0
  {
    hide Vm.Strict, NamesOf, Exec, ExecList, GenStmt, GenStmts, Supported, SupportedList, Aligned, AlignedList,
         Balanced, BalancedList, Leaves, LeavesAny, Eval, GenExpr, Need, SupportedExpr, Forward, Lands, Config;
    IfElseParts(m.prims, s, depth, dirty, scoped, st, fuel);
    IfElseLayout(m, s, depth, dirty, scoped, cs, pc);
    var g := GenExpr(s.cond, cs);
    var h := GenStmt(s.thenBranch, depth, g.s);
    var w := GenStmt(s.elseBranch.value, depth, h.s);
    var skip, skipElse := 1 + |h.code| + 3, 1 + |w.code|;
    var c, end, r := Config(pc, residue, st, []), pc + |GenStmt(s, depth, cs).code|, Eval(m.prims, s.cond, st);
    left := residue;
    n := SimCondition(m, s.cond, cs, pc, skip, st, residue, fuel, end, w.s);
    if Room(st, Need(s.cond)) && r.EVal? {
      if Falsy(r.v) {
        var from := pc + |g.code| + 3 + skip + 1;
        var n1, r1 := SimStmt(m, s.elseBranch.value, depth, dirty, scoped, h.s, from, r.st, residue, fuel);
        Prepend(m, n, c, Config(from, residue, r.st, []), n1, Exec(m.prims, s.elseBranch.value, depth, r.st, fuel),
          fuel, end, w.s, r1);
        n, left := n + n1, r1;
      } else {
        var from := pc + |g.code| + 4;
        var to := from + |h.code|;
        var n1, r1 := SimStmt(m, s.thenBranch, depth, dirty, scoped, g.s, from, r.st, residue, fuel);
        var o := Exec(m.prims, s.thenBranch, depth, r.st, fuel);
        Prepend(m, n, c, Config(from, residue, r.st, []), n1, o, fuel, to, h.s, r1);
        n, left := n + n1, r1;
        if o.Next? {
          NextMatches(m, n, c, o, fuel, to, h.s, r1);
          SimJump(m, to, skipElse, r1, o.st);
          Append(m, c, fuel, n, o, to, h.s, r1, 1, o.st, end, w.s, r1);
          n := n + 1;
        } else {
          Elsewhere(m, n, c, o, fuel, to, h.s, r1, end, w.s, r1);
        }
      }
    }
  }

  lemma PopsUnfold(k: nat)
    ensures Pops(k) == if k == 0 then [] else [OP_POP] + Pops(k - 1)
  {
  }

  lemma LastVariable(pc: int, residue: seq<Value>, st: State)
    requires WellFormed(st) && st.vals != []
    ensures var l := |st.vals| - 1;
      Config(pc, residue, st, []) ==
        Config(pc, residue, st.(names := st.names[..l], vals := st.vals[..l]), [st.vals[l]])
  {
    assert residue + st.vals + [] == residue + st.vals[..|st.vals| - 1] + [st.vals[|st.vals| - 1]];
  }

  /** `end_scope`: the innermost block variables are popped. */
  lemma {:induction false} SimPops(m: Vm, pc: int, k: nat, residue: seq<Value>, st: State)
    requires At(m.code, pc, Pops(k)) && WellFormed(st) && k <= |st.vals| && |residue| + |st.vals| <= STACK_MAX
    ensures m.Strict(k, Config(pc, residue, st, [])) ==
            Config(pc + k, residue, st.(names := st.names[..|st.names| - k], vals := st.vals[..|st.vals| - k]), [])
    decreases k
  {
    hide Vm.Strict, Pops;
    var c := Config(pc, residue, st, []);
    PopsUnfold(k);
    if k == 0 {
      m.StrictZero(c);
      assert st.names[..|st.names|] == st.names && st.vals[..|st.vals|] == st.vals;
    } else {
      var l := |st.vals| - 1;
      var st1 := st.(names := st.names[..l], vals := st.vals[..l]);
      AtSplit(m.code, pc, [OP_POP], Pops(k - 1));
      LastVariable(pc, residue, st);
      SimPop(m, pc, residue, st1, st.vals[l]);
      SimPops(m, pc + 1, k - 1, residue, st1);
      m.StrictAdd(1, k - 1, c);
      assert st1.names[..|st1.names| - (k - 1)] == st.names[..|st.names| - k];
      assert st1.vals[..|st1.vals| - (k - 1)] == st.vals[..|st.vals| - k];
    }
  }

  lemma {:induction false} LeavesNothing(ss: seq<Stmt>, depth: nat)
    requires depth > 0
    ensures !LeavesAny(ss, depth)
  {
    if ss != [] {
      LeavesNothing(ss[1..], depth);
    }
  }

  lemma NamesOfPrefix(locals: seq<Local>, k: nat)
    requires k <= |locals|
    ensures NamesOf(locals[..k]) == NamesOf(locals)[..k]
  {
  }

  /** Leaving a scope: the block variables declared in it are popped. */
  lemma SimLeave(m: Vm, n: nat, c: Conf, o: Outcome, fuel: nat, pc: int, s: Static, residue: seq<Value>,
      outer: seq<Local>)
    returns (n': nat)
    requires Lands(m, n, c, o, fuel, pc, s, residue)
    requires outer <= s.locals && At(m.code, pc, Pops(|s.locals| - |outer|))
    ensures Lands(m, n', c, Leave(o, |outer|), fuel, pc + |s.locals| - |outer|, s.(locals := outer), residue)
  {
    hide Vm.Strict, NamesOf;
    var k := |s.locals| - |outer|;
    if o.Next? {
      SimPops(m, pc, k, residue, o.st);
      NamesOfPrefix(s.locals, |outer|);
      assert s.locals[..|outer|] == outer;
      var st2 := o.st.(names := o.st.names[..|outer|], vals := o.st.vals[..|outer|]);
      Append(m, c, fuel, n, o, pc, s, residue, k, st2, pc + k, s.(locals := outer), residue);
      n' := n + k;
    } else {
      Elsewhere(m, n, c, o, fuel, pc, s, residue, pc + k, s.(locals := outer), residue);
      n' := n;
    }
  }

  lemma BlockParts(P: Prims, s: Stmt, depth: nat, dirty: bool, scoped: bool, cs: Static, st: State, fuel: nat)
    requires s.Block?
    requires Supported(s) && Aligned(s, depth, dirty, scoped) && WellFormed(st)
    ensures SupportedList(s.stmts) && AlignedList(s.stmts, depth + 1, dirty, scoped)
    ensures Balanced(s) ==> BalancedList(s.stmts)
    ensures !Leaves(s, depth)
    ensures GenStmt(s, depth, cs) == EndScope(GenStmts(s.stmts, depth + 1, cs), depth)
    ensures Exec(P, s, depth, st, fuel) == Leave(ExecList(P, s.stmts, depth + 1, st, fuel), |st.names|)
  {
  }

  lemma {:induction false} SimBlock(m: Vm, s: Stmt, depth: nat, dirty: bool, scoped: bool, cs: Static, pc: int,
      st: State, residue: seq<Value>, fuel: nat)
    returns (n: nat, left: seq<Value>)
    requires s.Block?
    requires Supported(s) && Aligned(s, depth, dirty, scoped) && (m.tolerant || Balanced(s))
    requires Ready(m, depth, dirty, scoped, cs, st, residue)
    requires Placed(m, pc, GenStmt(s, depth, cs))
    ensures Lands(m, n, Config(pc, residue, st, []), Exec(m.prims, s, depth, st, fuel), fuel,
                  pc + |GenStmt(s, depth, cs).code|, GenStmt(s, depth, cs).s, left)
    ensures !dirty && !Leaves(s, depth) ==> left == []
    decreases fuel, s, 1
  {
    hide Vm.Strict, NamesOf, Exec, ExecList, GenStmt, GenStmts, Supported, SupportedList, Aligned, AlignedList,
         Balanced, BalancedList, Leaves, LeavesAny, Lands, Config, EndScope;
    BlockParts(m.prims, s, depth, dirty, scoped, cs, st, fuel);
    var c := Config(pc, residue, st, []);
    var g := GenStmts(s.stmts, depth + 1, cs);
    GenStmtsStatic(s.stmts, depth + 1, cs);
    EndScopeRestores(g, cs.locals, depth);
    var k := |g.s.locals| - |cs.locals|;
    AtSplit(m.code, pc, g.code, Pops(k));
    LeavesNothing(s.stmts, depth + 1);
    n, left := SimList(m, s.stmts, depth + 1, dirty, scoped, cs, pc, st, residue, fuel);
    n := SimLeave(m, n, c, ExecList(m.prims, s.stmts, depth + 1, st, fuel), fuel, pc + |g.code|, g.s, left, cs.locals);
  }

  lemma WhileAligned(s: Stmt, depth: nat, dirty: bool, scoped: bool)
    requires s.While?
    requires Supported(s) && Aligned(s, depth, dirty, scoped)
    ensures s.body.Block? && SupportedList(s.body.stmts)
    ensures AlignedList(s.body.stmts, depth, dirty || LeavesAny(s.body.stmts, depth), scoped)
    ensures depth > 0 ==> NoDeclaration(s.body.stmts)
  {
    hide GenExpr, GenStmts, SupportedExpr, Forward, Backward, AlignedList, SupportedList;
  }

  lemma WhileLayout(m: Vm, s: Stmt, depth: nat, dirty: bool, scoped: bool, cs: Static, pc: int)
    requires s.While?
    requires Supported(s) && Aligned(s, depth, dirty, scoped) && Within(cs.locals, depth) && |m.code| <= 0xffff
    requires Placed(m, pc, GenStmt(s, depth, cs))
    ensures s.body.Block?
    ensures
      var g := GenExpr(s.cond, cs);
      var h := GenStmts(s.body.stmts, depth, g.s);
      var skip, back := 1 + |h.code| + 3, |g.code| + 4 + |h.code| + 3;
      var test, all := pc + |g.code|, GenStmt(s, depth, cs);
      && Placed(m, pc, g) && skip <= 0xffff && back <= 0xffff
      && At(m.code, test, Forward(OP_JUMP_IF_FALSE, skip))
      && At(m.code, test + 3, [OP_POP])
      && At(m.code, test + 3 + skip, [OP_POP])
      && Placed(m, test + 4, h)
      && At(m.code, test + 4 + |h.code|, Backward(back))
      && pc + |all.code| == test + 3 + skip + 1
      && all.s == h.s && g.s.locals == h.s.locals == cs.locals
  {
    hide GenExpr, GenStmt, GenStmts, Supported, SupportedList, SupportedExpr, Aligned, AlignedList, Forward, Backward;
    WhileAligned(s, depth, dirty, scoped);
    GenWhile(s, depth, cs);
    var body := s.body.stmts;
    var g := GenExpr(s.cond, cs);
    var h := GenStmts(body, depth, g.s);
    GenBodyBlock(s.body, depth, g.s);
    SplitWhile(m.code, pc, g.code, 1 + |h.code| + 3, h.code, |g.code| + 4 + |h.code| + 3);
    GenExprStatic(s.cond, cs);
    GenStmtsStatic(body, depth, g.s);
    SameLocalsList(body, depth, dirty || LeavesAny(body, depth), scoped, g.s);
  }

  lemma WhileParts(P: Prims, s: Stmt, depth: nat, dirty: bool, scoped: bool, st: State, fuel: nat)
    requires s.While?
    requires Supported(s) && Aligned(s, depth, dirty, scoped) && WellFormed(st)
    ensures s.body.Block?
    ensures SupportedExpr(s.cond) && SupportedList(s.body.stmts) && (Balanced(s) ==> BalancedList(s.body.stmts))
    ensures AlignedList(s.body.stmts, depth, dirty || LeavesAny(s.body.stmts, depth), scoped)
    ensures Aligned(s, depth, dirty || LeavesAny(s.body.stmts, depth), scoped)
    ensures depth > 0 ==> NoDeclaration(s.body.stmts)
    ensures !Leaves(s, depth) ==> !LeavesAny(s.body.stmts, depth)
    ensures Exec(P, s, depth, st, fuel) ==
      if fuel == 0 then OutOfFuel
      else if !Room(st, Need(s.cond)) then Deep
      else
        var r := Eval(P, s.cond, st);
        if r.EFail? then Failed(r.ending, r.failed)
        else if Falsy(r.v) then Next(r.st)
        else
          var o := ExecList(P, s.body.stmts, depth, r.st, fuel);
          if o.Next? then Exec(P, s, depth, o.st, fuel - 1) else o
  {
    hide Eval, GenExpr, Need, SupportedExpr, Forward, Backward, GenStmts, ExecList, AlignedList, SupportedList,
         BalancedList;
    assert Balanced(s) == Balanced(s.body) == BalancedList(s.body.stmts);
    if depth > 0 {
      LeavesNothing(s.body.stmts, depth);
    }
  }

  lemma {:induction false} SimWhile(m: Vm, s: Stmt, depth: nat, dirty: bool, scoped: bool, cs: Static, pc: int,
      st: State, residue: seq<Value>, fuel: nat)
    returns (n: nat, left: seq<Value>)
    requires s.While?
    requires Supported(s) && Aligned(s, depth, dirty, scoped) && (m.tolerant || Balanced(s))
    requires Ready(m, depth, dirty, scoped, cs, st, residue)
    requires Placed(m, pc, GenStmt(s, depth, cs))
    ensures Lands(m, n, Config(pc, residue, st, []), Exec(m.prims, s, depth, st, fuel), fuel,
                  pc + |GenStmt(s, depth, cs).code|, GenStmt(s, depth, cs).s, left)
    ensures !dirty && !Leaves(s, depth) ==> left == []
    decreases fuel, s, 1
  {
    hide Vm.Strict, NamesOf, Exec, ExecList, GenStmt, GenStmts, Supported, SupportedList, Aligned, AlignedList,
         Balanced, BalancedList, Leaves, LeavesAny, Eval, GenExpr, Need, SupportedExpr, Forward, Backward, Lands,
         Config;
    WhileParts(m.prims, s, depth, dirty, scoped, st, fuel);
    WhileLayout(m, s, depth, dirty, scoped, cs, pc);
    var body := s.body.stmts;
    var dirty' := dirty || LeavesAny(body, depth);
    var g := GenExpr(s.cond, cs);
    var h := GenStmts(body, depth, g.s);
    var skip, back := 1 + |h.code| + 3, |g.code| + 4 + |h.code| + 3;
    var c, end, r := Config(pc, residue, st, []), pc + |GenStmt(s, depth, cs).code|, Eval(m.prims, s.cond, st);
    left := residue;
    n := SimCondition(m, s.cond, cs, pc, skip, st, residue, fuel, end, h.s);
    if fuel == 0 {
      n := 0;
      ConfigRuns(pc, residue, st, []);
      LandsOutOfFuel(m, c, end, h.s, residue);
    } else if Room(st, Need(s.cond)) && r.EVal? {
      if Falsy(r.v) {
        LandsNext(m, n, c, fuel, end, h.s, r.st, residue);
      } else {
        var from := pc + |g.code| + 4;
        var to := from + |h.code|;
        var n1, r1 := SimList(m, body, depth, dirty', scoped, g.s, from, r.st, residue, fuel);
        var o := ExecList(m.prims, body, depth, r.st, fuel);
        Prepend(m, n, c, Config(from, residue, r.st, []), n1, o, fuel, to, h.s, r1);
        n, left := n + n1, r1;
        if o.Next? {
          NextMatches(m, n, c, o, fuel, to, h.s, r1);
          SimJumpBack(m, to, back, r1, o.st);
          Append(m, c, fuel, n, o, to, h.s, r1, 1, o.st, pc, cs, r1);
          n := n + 1;
          var n2, r2 := SimWhile(m, s, depth, dirty', scoped, cs, pc, o.st, r1, fuel - 1);
          Compose(m, c, fuel, n, Next(o.st), pc, cs, r1, n2, Exec(m.prims, s, depth, o.st, fuel - 1), fuel - 1, end,
            h.s, r2);
          n, left := n + n2, r2;
        } else {
          Elsewhere(m, n, c, o, fuel, to, h.s, r1, end, h.s, []);
          left := [];
        }
      }
    }
  }

  lemma ConfigRuns(pc: int, residue: seq<Value>, st: State, temps: seq<Value>)
    ensures Config(pc, residue, st, temps).Running?
  {
  }

  lemma ForParts(P: Prims, s: Stmt, depth: nat, dirty: bool, scoped: bool, cs: Static, st: State, fuel: nat)
    requires s.For?
    requires Supported(s) && Aligned(s, depth, dirty, scoped) && WellFormed(st)
    ensures SupportedExpr(s.start) && LoopBody(s, depth + 1) && (Balanced(s) ==> BalancedList(s.body.stmts))
    ensures !dirty && |s.name| <= MAX_NAME
    ensures
      var g := GenExpr(s.start, cs);
      var (slot, s1) := AddLocal(g.s, s.name, depth + 1);
      var h := GenForLoop(s.end, s.body, slot, depth + 1, s1);
      GenStmt(s, depth, cs) == EndScope(Emitted(g.code + h.code, h.s), depth)
    ensures Exec(P, s, depth, st, fuel) ==
      if !Room(st, Need(s.start)) then Deep
      else
        var r := Eval(P, s.start, st);
        if r.EFail? then Failed(r.ending, r.failed)
        else Leave(ForLoop(P, s, |st.names|, depth + 1, Declare(s.name, r.v, depth + 1, r.st), fuel), |st.names|)
  {
    hide Eval, GenExpr, Need, SupportedExpr, GenForLoop, EndScope, ForLoop, AlignedList, SupportedList, BalancedList;
    assert Balanced(s) == Balanced(s.body) == BalancedList(s.body.stmts);
  }

  /** What the body of a `for`, compiled at this depth, must satisfy. */
  predicate LoopBody(s: Stmt, depth: nat) {
    && s.For? && Supported(s) && s.body.Block? && depth > 0
    && SupportedExpr(s.end) && SupportedList(s.body.stmts)
    && NoDeclaration(s.body.stmts) && AlignedList(s.body.stmts, depth, false, true)
  }

  lemma {:induction false} SimFor(m: Vm, s: Stmt, depth: nat, dirty: bool, scoped: bool, cs: Static, pc: int,
      st: State, residue: seq<Value>, fuel: nat)
    returns (n: nat, left: seq<Value>)
    requires s.For?
    requires Supported(s) && Aligned(s, depth, dirty, scoped) && (m.tolerant || Balanced(s))
    requires Ready(m, depth, dirty, scoped, cs, st, residue)
    requires Placed(m, pc, GenStmt(s, depth, cs))
    ensures Lands(m, n, Config(pc, residue, st, []), Exec(m.prims, s, depth, st, fuel), fuel,
                  pc + |GenStmt(s, depth, cs).code|, GenStmt(s, depth, cs).s, left)
    ensures !dirty && !Leaves(s, depth) ==> left == []
    decreases fuel, s, 1
  {
    hide Vm.Strict, NamesOf, Exec, ExecList, GenStmt, GenStmts, Supported, SupportedList, Aligned, AlignedList,
         Balanced, BalancedList, Leaves, LeavesAny, Lands, Eval, GenExpr, Need, SupportedExpr, GenForLoop, EndScope,
         LoopBody, ForLoop;
    ForParts(m.prims, s, depth, dirty, scoped, cs, st, fuel);
    left := residue;
    var c, r := Config(pc, residue, st, []), Eval(m.prims, s.start, st);
    var g := GenExpr(s.start, cs);
    var (slot, s1) := AddLocal(g.s, s.name, depth + 1);
    var h := GenForLoop(s.end, s.body, slot, depth + 1, s1);
    var from := pc + |g.code|;
    var to := from + |h.code|;
    GenExprStatic(s.start, cs);
    GenForLoopStatic(s.end, s.body, slot, depth + 1, s1);
    LoopLocals(s, slot, depth + 1, s1);
    EndScopeRestores(Emitted(g.code + h.code, h.s), cs.locals, depth);
    AtSplit(m.code, pc, g.code + h.code, Pops(1));
    AtSplit(m.code, pc, g.code, h.code);
    n := 0;
    if !Room(st, Need(s.start)) {
      LandsDeep(m, c, fuel, to + 1, GenStmt(s, depth, cs).s, residue);
    } else {
      n := SimExpr(m, s.start, cs, pc, st, residue, []);
      if r.EFail? {
        LandsStop(m, n, c, r.ending, r.failed, fuel, to + 1, GenStmt(s, depth, cs).s, residue);
      } else {
        var st1 := Declare(s.name, r.v, depth + 1, r.st);
        NamesOfPlus(cs.locals, Local(s.name, depth + 1));
        assert residue + r.st.vals + ([] + [r.v]) == [] + (r.st.vals + [r.v]) + [];
        var n1 := SimForLoop(m, s, depth + 1, s1, from, st1, fuel);
        Prepend(m, n, c, Config(from, [], st1, []), n1, ForLoop(m.prims, s, |st.names|, depth + 1, st1, fuel), fuel,
          to, h.s, []);
        n := SimLeave(m, n + n1, c, ForLoop(m.prims, s, |st.names|, depth + 1, st1, fuel), fuel, to, h.s, [],
          cs.locals);
      }
    }
  }

  lemma LandsDeep(m: Vm, c: Conf, fuel: nat, pc: int, s: Static, residue: seq<Value>)
    ensures Lands(m, 0, c, Deep, fuel, pc, s, residue)
  {
  }

  lemma LandsStop(m: Vm, n: nat, c: Conf, k: Ending, st: State, fuel: nat, pc: int, s: Static, residue: seq<Value>)
    requires m.Strict(n, c) == Halted(k, st.globals, st.out)
    ensures Lands(m, n, c, Failed(k, st), fuel, pc, s, residue)
  {
  }

  lemma LoopLocals(s: Stmt, slot: byte, depth: nat, st: Static)
    requires Within(st.locals, depth) && LoopBody(s, depth)
    ensures GenForLoop(s.end, s.body, slot, depth, st).s.locals == st.locals
  {
    hide GenExpr, GenStmts, Forward, Backward;
    var g := GenExpr(s.end, st);
    GenExprStatic(s.end, st);
    SameLocalsList(s.body.stmts, depth, false, true, g.s);
    assert GenBody(s.body, depth, g.s) == GenStmts(s.body.stmts, depth, g.s);
    assert GenRound(s.body, slot, depth, |LoopTest(slot, g)|, g.s).s.locals == GenBody(s.body, depth, g.s).s.locals;
  }

  function LoopTest(slot: byte, end: Emitted): seq<byte> {
    [OP_GET_LOCAL, slot] + end.code + [OP_LESS]
  }

  /** Comparing the loop variable with the end expression. */
  lemma SimLoopTest(m: Vm, s: Stmt, k: nat, cs: Static, pc: int, st: State)
    returns (n: nat)
    requires s.For? && SupportedExpr(s.end) && Matches(cs, st, []) && k + 1 == |st.vals| <= 256
    requires At(m.code, pc, LoopTest(k, GenExpr(s.end, cs)))
    requires !GenExpr(s.end, cs).s.err && GenExpr(s.end, cs).s.constants <= m.constants
    requires Room(st, 1 + Need(s.end))
    ensures
      var c, r := Config(pc, [], st, []), Eval(m.prims, s.end, st);
      match r
      case EFail(e, f) => m.Strict(n, c) == Halted(e, f.globals, f.out)
      case EVal(bound, st1) =>
        match ApplyBinary(m.prims, Less, st.vals[k], bound)
        case Err(e) => m.Strict(n, c) == Halted(e, st1.globals, st1.out)
        case Val(v) => m.Strict(n, c) == Config(pc + |LoopTest(k, GenExpr(s.end, cs))|, [], st1, [v])
  {
    hide Vm.Strict, Eval, GenExpr, Need, SupportedExpr, ApplyBinary;
    var c, r := Config(pc, [], st, []), Eval(m.prims, s.end, st);
    var g, a := GenExpr(s.end, cs), st.vals[k];
    AtSplit(m.code, pc, [OP_GET_LOCAL, k] + g.code, [OP_LESS]);
    AtSplit(m.code, pc, [OP_GET_LOCAL, k], g.code);
    assert c.stack == st.vals && [] + st.vals + [a] == st.vals + [a];
    StepGetLocal(m, c, k);
    n := SimExpr(m, s.end, cs, pc + 2, st, [], [a]);
    m.StrictAdd(1, n, c);
    n := 1 + n;
    if r.EVal? {
      var c2 := Config(pc + 2 + |g.code|, [], r.st, [a] + [r.v]);
      assert c2.stack == r.st.vals + [a, r.v];
      StepBinary(m, c2, Less, r.st.vals, a, r.v);
      m.StrictAdd(n, 1, c);
      n := n + 1;
      forall v
        ensures r.st.vals + [v] == [] + r.st.vals + [v]
      {
      }
    }
  }

  /** The loop variable and 1 are pushed and added. */
  lemma SimSum(m: Vm, k: nat, s: Static, pc: int, st: State)
    requires k + 1 == |st.vals| <= 256
    requires At(m.code, pc, [OP_GET_LOCAL, k]) && Placed(m, pc + 2, WithConstant(OP_CONSTANT, Int(1), s))
    requires At(m.code, pc + 4, [OP_ADD])
    ensures m.Strict(3, Config(pc, [], st, [])) ==
            AfterResult(Config(pc, [], st, []), pc + 5, st.vals, ApplyBinary(m.prims, Add, st.vals[k], Int(1)))
  {
    hide Vm.Strict, ApplyBinary, WithConstant;
    var c, a := Config(pc, [], st, []), st.vals[k];
    assert c.stack == st.vals && [] + st.vals + [a] == st.vals + [a];
    StepGetLocal(m, c, k);
    SimLiteral(m, Int(1), s, pc + 2, st, [], [a]);
    m.StrictAdd(1, 1, c);
    var c2 := Config(pc + 4, [], st, [a] + [Int(1)]);
    assert c2.stack == st.vals + [a, Int(1)];
    StepBinary(m, c2, Add, st.vals, a, Int(1));
    m.StrictAdd(2, 1, c);
  }

  /** The sum is stored in the loop variable and popped. */
  lemma SimStoreSum(m: Vm, k: nat, pc: int, st: State, w: Value)
    requires k + 1 == |st.vals| <= 256
    requires At(m.code, pc, [OP_SET_LOCAL, k]) && At(m.code, pc + 2, [OP_POP])
    ensures m.Strict(2, Running(pc, st.vals + [w], st.globals, st.out)) ==
            Config(pc + 3, [], st.(vals := st.vals[k := w]), [])
  {
    hide Vm.Strict;
    var st1 := st.(vals := st.vals[k := w]);
    var c := Running(pc, st.vals + [w], st.globals, st.out);
    StepSetLocal(m, c, k);
    assert (st.vals + [w])[k := w] == [] + st1.vals + [w];
    SimPop(m, pc + 2, [], st1, w);
    m.StrictAdd(1, 1, c);
  }

  /** The increment at the end of a loop body. */
  lemma SimIncrement(m: Vm, k: nat, s: Static, pc: int, st: State)
    returns (n: nat)
    requires k + 1 == |st.vals| <= 256
    requires Placed(m, pc, Increment(k, s))
    ensures
      var c := Config(pc, [], st, []);
      match ApplyBinary(m.prims, Add, st.vals[k], Int(1))
      case Err(e) => m.Strict(n, c) == Halted(e, st.globals, st.out)
      case Val(w) => m.Strict(n, c) == Config(pc + 8, [], st.(vals := st.vals[k := w]), [])
  {
    hide Vm.Strict, ApplyBinary;
    var one := WithConstant(OP_CONSTANT, Int(1), s);
    AtSplit(m.code, pc, [OP_GET_LOCAL, k] + one.code + [OP_ADD] + [OP_SET_LOCAL, k], [OP_POP]);
    AtSplit(m.code, pc, [OP_GET_LOCAL, k] + one.code + [OP_ADD], [OP_SET_LOCAL, k]);
    AtSplit(m.code, pc, [OP_GET_LOCAL, k] + one.code, [OP_ADD]);
    AtSplit(m.code, pc, [OP_GET_LOCAL, k], one.code);
    SimSum(m, k, s, pc, st);
    n := 3;
    var sum := ApplyBinary(m.prims, Add, st.vals[k], Int(1));
    if sum.Val? {
      SimStoreSum(m, k, pc + 5, st, sum.v);
      m.StrictAdd(3, 2, Config(pc, [], st, []));
      n := 5;
    }
  }

  lemma ForLoopParts(P: Prims, s: Stmt, k: nat, depth: nat, st: State, fuel: nat)
    requires LoopBody(s, depth) && WellFormed(st)
    ensures ForLoop(P, s, k, depth, st, fuel) ==
      if fuel == 0 then OutOfFuel
      else if k >= |st.vals| || !Room(st, 1 + Need(s.end)) then Deep
      else
        var r := Eval(P, s.end, st);
        if r.EFail? then Failed(r.ending, r.failed)
        else
          match ApplyBinary(P, Less, st.vals[k], r.v)
          case Err(ending) => Failed(ending, r.st)
          case Val(v) =>
            if Falsy(v) then Next(r.st) else ForRound(P, s, k, depth, r.st, fuel)
  {
    hide Eval, GenExpr, GenStmts, Need, SupportedExpr, Forward, Backward, ApplyBinary, ForRound, AlignedList,
         SupportedList;
  }

  /** The stretches of a loop's code. */
  datatype Pieces = Pieces(end: Emitted, body: Emitted, next: Emitted, test: seq<byte>) {
    function Skip(): nat { 1 + |body.code| + |next.code| + 3 }
    function Back(): nat { |test| + 4 + |body.code| + |next.code| + 3 }
    /** Where the body starts, relative to the loop. */
    function Body(): nat { |test| + 4 }
    function Next(): nat { Body() + |body.code| }
  }

  function PiecesOf(s: Stmt, k: byte, depth: nat, cs: Static): Pieces
    requires s.For? && s.body.Block?
  {
    var g := GenExpr(s.end, cs);
    var h := GenStmts(s.body.stmts, depth, g.s);
    Pieces(g, h, Increment(k, h.s), LoopTest(k, g))
  }

  lemma RoundLayout(code: seq<byte>, b: Stmt, k: byte, depth: nat, test: nat, st: Static, pc: int)
    requires b.Block? && At(code, pc, GenRound(b, k, depth, test, st).code)
    ensures
      var h := GenStmts(b.stmts, depth, st);
      var next := Increment(k, h.s);
      && At(code, pc, Forward(OP_JUMP_IF_FALSE, 1 + |h.code| + |next.code| + 3))
      && At(code, pc + 3, [OP_POP])
      && At(code, pc + 4, h.code)
      && At(code, pc + 4 + |h.code|, next.code)
      && At(code, pc + 4 + |h.code| + |next.code|, Backward(test + 4 + |h.code| + |next.code| + 3))
      && At(code, pc + 4 + |h.code| + |next.code| + 3, [OP_POP])
  {
    hide GenStmts, Forward, Backward, Increment;
    var h := GenStmts(b.stmts, depth, st);
    var next := Increment(k, h.s).code;
    GenBodyBlock(b, depth, st);
    SplitRound(code, pc, 1 + |h.code| + |next| + 3, h.code, next, test + 4 + |h.code| + |next| + 3);
  }

  lemma IncrementLength(k: byte, s: Static)
    ensures |Increment(k, s).code| == 8 && Extends(s, Increment(k, s).s) && Increment(k, s).s.locals == s.locals
  {
  }

  lemma LoopLayout(m: Vm, s: Stmt, k: byte, depth: nat, cs: Static, pc: int)
    requires LoopBody(s, depth) && Within(cs.locals, depth) && |m.code| <= 0xffff
    requires Placed(m, pc, GenForLoop(s.end, s.body, k, depth, cs))
    ensures
      var p := PiecesOf(s, k, depth, cs);
      var all := GenForLoop(s.end, s.body, k, depth, cs);
      && p.test == LoopTest(k, GenExpr(s.end, cs)) && p.end == GenExpr(s.end, cs)
      && p.body == GenStmts(s.body.stmts, depth, p.end.s)
      && p.next == Increment(k, p.body.s)
      && At(m.code, pc, p.test)
      && At(m.code, pc + |p.test|, Forward(OP_JUMP_IF_FALSE, p.Skip()))
      && At(m.code, pc + |p.test| + 3, [OP_POP])
      && Placed(m, pc + p.Next(), p.next)
      && At(m.code, pc + p.Next() + 8, Backward(p.Back()))
      && At(m.code, pc + |p.test| + 3 + p.Skip(), [OP_POP])
      && |p.next.code| == 8 && |all.code| == p.Next() + 8 + 4 && p.Skip() <= 0xffff && p.Back() <= 0xffff
      && Placed(m, pc + p.Body(), p.body)
      && all.s.locals == cs.locals == p.end.s.locals == p.body.s.locals
      && !p.end.s.err && p.end.s.constants <= m.constants
  {
    hide GenExpr, GenStmts, AlignedList, SupportedList, SupportedExpr, Forward, Backward, At, Increment;
    var p := PiecesOf(s, k, depth, cs);
    var all := GenForLoop(s.end, s.body, k, depth, cs);
    AtEnds(m.code, pc, all.code);
    IncrementLength(k, p.body.s);
    AtSplit(m.code, pc, p.test, GenRound(s.body, k, depth, |p.test|, p.end.s).code);
    RoundLayout(m.code, s.body, k, depth, |p.test|, p.end.s, pc + |p.test|);
    LoopLocals(s, k, depth, cs);
    GenExprStatic(s.end, cs);
    GenStmtsStatic(s.body.stmts, depth, p.end.s);
    SameLocalsList(s.body.stmts, depth, false, true, p.end.s);
  }

  /** Rounds of the loop, from the comparison to the exit. */
  lemma {:induction false} SimForLoop(m: Vm, s: Stmt, depth: nat, cs: Static, pc: int, st: State, fuel: nat)
    returns (n: nat)
    requires LoopBody(s, depth) && (m.tolerant || BalancedList(s.body.stmts))
    requires |m.code| <= 0xffff && Matches(cs, st, []) && Within(cs.locals, depth)
    requires 0 < |cs.locals| <= MAX_LOCALS
    requires Placed(m, pc, GenForLoop(s.end, s.body, |cs.locals| - 1, depth, cs))
    ensures
      var g := GenForLoop(s.end, s.body, |cs.locals| - 1, depth, cs);
      Lands(m, n, Config(pc, [], st, []), ForLoop(m.prims, s, |cs.locals| - 1, depth, st, fuel), fuel, pc + |g.code|,
        g.s, [])
    decreases fuel, s, 0, 1
  {
    hide Vm.Strict, NamesOf, Exec, ExecList, GenStmt, GenStmts, Supported, SupportedList, Aligned, AlignedList,
         Balanced, BalancedList, Leaves, LeavesAny, Lands, Config, Eval, GenExpr, GenForLoop, Need, SupportedExpr,
         Forward, Backward, LoopTest, Increment, ForLoop, ForRound, ApplyBinary, LoopBody, PiecesOf, Declare, Room;
    var k: byte := |cs.locals| - 1;
    LoopBodyFacts(s, depth);
    ForLoopParts(m.prims, s, k, depth, st, fuel);
    LoopLayout(m, s, k, depth, cs, pc);
    var p := PiecesOf(s, k, depth, cs);
    var all := GenForLoop(s.end, s.body, k, depth, cs);
    var c, end, r := Config(pc, [], st, []), pc + |all.code|, Eval(m.prims, s.end, st);
    n := 0;
    if fuel == 0 {
      ConfigRuns(pc, [], st, []);
      LandsOutOfFuel(m, c, end, all.s, []);
    } else if !Room(st, 1 + Need(s.end)) {
      LandsDeep(m, c, fuel, end, all.s, []);
    } else {
      n := SimLoopTest(m, s, k, cs, pc, st);
      if r.EFail? {
        LandsStop(m, n, c, r.ending, r.failed, fuel, end, all.s, []);
      } else {
        var v := ApplyBinary(m.prims, Less, st.vals[k], r.v);
        if v.Err? {
          LandsStop(m, n, c, v.ending, r.st, fuel, end, all.s, []);
        } else {
          SimTest(m, pc + |p.test|, p.Skip(), [], r.st, v.v);
          m.StrictAdd(n, 2, c);
          n := n + 2;
          if Falsy(v.v) {
            LandsNext(m, n, c, fuel, end, all.s, r.st, []);
          } else {
            var n1 := SimRound(m, s, depth, cs, pc, r.st, fuel);
            Prepend(m, n, c, Config(pc + p.Body(), [], r.st, []), n1, ForRound(m.prims, s, k, depth, r.st, fuel),
              fuel, end, all.s, []);
            n := n + n1;
          }
        }
      }
    }
  }

  lemma LoopBodyFacts(s: Stmt, depth: nat)
    requires LoopBody(s, depth)
    ensures s.For? && Supported(s) && s.body.Block? && SupportedExpr(s.end) && SupportedList(s.body.stmts)
    ensures depth > 0 && NoDeclaration(s.body.stmts) && AlignedList(s.body.stmts, depth, false, true)
    ensures !LeavesAny(s.body.stmts, depth)
  {
    LeavesNothing(s.body.stmts, depth);
  }

  lemma ForRoundParts(P: Prims, s: Stmt, k: nat, depth: nat, st: State, fuel: nat)
    requires fuel > 0 && LoopBody(s, depth) && WellFormed(st)
    ensures ForRound(P, s, k, depth, st, fuel) ==
      var o := ExecList(P, s.body.stmts, depth, st, fuel);
      if !o.Next? then o
      else if k >= |o.st.vals| then Deep
      else
        match ApplyBinary(P, Add, o.st.vals[k], Int(1))
        case Err(ending) => Failed(ending, o.st)
        case Val(w) => ForLoop(P, s, k, depth, o.st.(vals := o.st.vals[k := w]), fuel - 1)
  {
    hide ApplyBinary, ExecList, ForLoop, LoopBody;
  }

  /** One round from the body on: body, increment, and back to the comparison. */
  lemma {:induction false} SimRound(m: Vm, s: Stmt, depth: nat, cs: Static, pc: int, st: State, fuel: nat)
    returns (n: nat)
    requires fuel > 0 && LoopBody(s, depth) && s.body.Block? && (m.tolerant || BalancedList(s.body.stmts))
    requires |m.code| <= 0xffff && Matches(cs, st, []) && Within(cs.locals, depth)
    requires 0 < |cs.locals| <= MAX_LOCALS
    requires Placed(m, pc, GenForLoop(s.end, s.body, |cs.locals| - 1, depth, cs))
    ensures
      var g := GenForLoop(s.end, s.body, |cs.locals| - 1, depth, cs);
      var p := PiecesOf(s, |cs.locals| - 1, depth, cs);
      Lands(m, n, Config(pc + p.Body(), [], st, []), ForRound(m.prims, s, |cs.locals| - 1, depth, st, fuel), fuel,
        pc + |g.code|, g.s, [])
    decreases fuel, s, 0, 0
  {
    hide Vm.Strict, NamesOf, Exec, ExecList, GenStmt, GenStmts, Supported, SupportedList, Aligned, AlignedList,
         Balanced, BalancedList, Leaves, LeavesAny, Lands, Config, Eval, GenExpr, GenForLoop, Need, SupportedExpr,
         Forward, Backward, LoopTest, Increment, ForLoop, ForRound, ApplyBinary, LoopBody, PiecesOf, Declare, Room;
    var k: byte := |cs.locals| - 1;
    LoopBodyFacts(s, depth);
    ForRoundParts(m.prims, s, k, depth, st, fuel);
    LoopLayout(m, s, k, depth, cs, pc);
    var p := PiecesOf(s, k, depth, cs);
    var all := GenForLoop(s.end, s.body, k, depth, cs);
    var c, end := Config(pc + p.Body(), [], st, []), pc + |all.code|;
    var r1;
    n, r1 := SimList(m, s.body.stmts, depth, false, true, p.end.s, pc + p.Body(), st, [], fuel);
    var o := ExecList(m.prims, s.body.stmts, depth, st, fuel);
    if !o.Next? {
      Elsewhere(m, n, c, o, fuel, pc + p.Next(), p.body.s, r1, end, all.s, []);
    } else {
      NextMatches(m, n, c, o, fuel, pc + p.Next(), p.body.s, r1);
      LandsConfig(m, n, c, o, fuel, pc + p.Next(), p.body.s, r1);
      var n1 := SimIncrement(m, k, p.body.s, pc + p.Next(), o.st);
      m.StrictAdd(n, n1, c);
      n := n + n1;
      var sum := ApplyBinary(m.prims, Add, o.st.vals[k], Int(1));
      if sum.Err? {
        LandsStop(m, n, c, sum.ending, o.st, fuel, end, all.s, []);
      } else {
        var st2 := o.st.(vals := o.st.vals[k := sum.v]);
        SimJumpBack(m, pc + p.Next() + 8, p.Back(), [], st2);
        m.StrictAdd(n, 1, c);
        n := n + 1;
        LandsNext(m, n, c, fuel, pc, cs, st2, []);
        var n2 := SimForLoop(m, s, depth, cs, pc, st2, fuel - 1);
        Compose(m, c, fuel, n, Next(st2), pc, cs, [], n2, ForLoop(m.prims, s, k, depth, st2, fuel - 1), fuel - 1,
          end, all.s, []);
        n := n + n2;
      }
    }
  }

  lemma LandsConfig(m: Vm, n: nat, c: Conf, o: Outcome, fuel: nat, pc: int, s: Static, residue: seq<Value>)
    requires Lands(m, n, c, o, fuel, pc, s, residue) && o.Next?
    ensures m.Strict(n, c) == Config(pc, residue, o.st, [])
  {
  }
}
