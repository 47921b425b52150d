/** Compiled expressions compute what the expression means. */
module ExprCorrect {
  import opened Values
  import opened Bytecode
  import opened Ast
  import opened Semantics
  import opened CodeGen
  import opened Machine

  /** `t` only adds constants to `s`, and keeps an error. */
  predicate Extends(s: Static, t: Static) {
    s.constants <= t.constants && (s.err ==> t.err)
  }

  lemma {:induction false} GenExprStatic(e: Expr, s: Static)
    ensures Extends(s, GenExpr(e, s).s) && GenExpr(e, s).s.locals == s.locals
    decreases e, 1
  {
    match e
    case Binary(_, l, r) =>
      GenExprStatic(l, s);
      GenExprStatic(r, GenExpr(l, s).s);
    case Unary(_, x) => GenExprStatic(x, s);
    case Call(f, args) =>
      GenExprStatic(f, s);
      GenExprsStatic(args, GenExpr(f, s).s);
    case Dot(x, _) => GenExprStatic(x, s);
    case Index(x, i) =>
      GenExprStatic(x, s);
      GenExprStatic(i, GenExpr(x, s).s);
    case ArrayLit(es) => GenExprsStatic(es, s);
    case Assign(t, x) =>
      var g := GenExpr(x, s);
      GenExprStatic(x, s);
      if t.Dot? {
        GenExprStatic(t.base, g.s);
      } else if t.Index? {
        GenExprStatic(t.base, g.s);
        GenExprStatic(t.index, GenExpr(t.base, g.s).s);
      }
    case _ =>
  }

  lemma {:induction false} GenExprsStatic(es: seq<Expr>, s: Static)
    ensures Extends(s, GenExprs(es, s).s) && GenExprs(es, s).s.locals == s.locals
    decreases es, 0
  {
    if es != [] {
      GenExprStatic(es[0], s);
      GenExprsStatic(es[1..], GenExpr(es[0], s).s);
    }
  }

  /** The compiler's block variables are the ones in scope. Values left behind by
      top-level declarations lie below them, so there must be none while any exists. */
  predicate Matches(s: Static, st: State, residue: seq<Value>) {
    && NamesOf(s.locals) == st.names
    && WellFormed(st)
    && |st.names| <= MAX_LOCALS
    && |residue| == st.left
    && |residue| + |st.vals| <= STACK_MAX
    && (residue == [] || st.vals == [])
  }

  function Config(pc: int, residue: seq<Value>, st: State, temps: seq<Value>): Conf {
    Running(pc, residue + st.vals + temps, st.globals, st.out)
  }

  /** `code` of `g` is in place in chunk `m`, and its constants are the chunk's. */
  predicate Placed(m: Vm, pc: int, g: Emitted) {
    At(m.code, pc, g.code) && !g.s.err && g.s.constants <= m.constants
  }

  // ----- single instructions -----

  lemma StepPush(m: Vm, c: Conf, op: byte, v: Value)
    requires c.Running? && At(m.code, c.pc, [op]) && |c.stack| < STACK_MAX
    requires (op, v) == (OP_TRUE, Bool(true)) || (op, v) == (OP_FALSE, Bool(false)) || (op, v) == (OP_NIL, Nil)
    ensures m.Strict(1, c) == c.(pc := c.pc + 1, stack := c.stack + [v])
  {
    assert m.code[c.pc..c.pc + 1][0] == op;
    assert m.Strict(1, c) == m.StrictStep(c);
  }

  lemma StepConstant(m: Vm, c: Conf, k: byte)
    requires c.Running? && At(m.code, c.pc, [OP_CONSTANT, k]) && k < |m.constants| && |c.stack| < STACK_MAX
    ensures m.Strict(1, c) == c.(pc := c.pc + 2, stack := c.stack + [m.constants[k]])
  {
    assert m.code[c.pc..c.pc + 2][0] == OP_CONSTANT && m.code[c.pc..c.pc + 2][1] == k;
    assert m.Strict(1, c) == m.StrictStep(c);
  }

  lemma StepGetLocal(m: Vm, c: Conf, k: byte)
    requires c.Running? && At(m.code, c.pc, [OP_GET_LOCAL, k]) && k < |c.stack| < STACK_MAX
    ensures m.Strict(1, c) == c.(pc := c.pc + 2, stack := c.stack + [c.stack[k]])
  {
    assert m.code[c.pc..c.pc + 2][0] == OP_GET_LOCAL && m.code[c.pc..c.pc + 2][1] == k;
    assert m.Strict(1, c) == m.StrictStep(c);
  }

  lemma StepSetLocal(m: Vm, c: Conf, k: byte)
    requires c.Running? && At(m.code, c.pc, [OP_SET_LOCAL, k]) && k < |c.stack| <= STACK_MAX
    ensures m.Strict(1, c) == c.(pc := c.pc + 2, stack := c.stack[k := c.stack[|c.stack| - 1]])
  {
    assert m.code[c.pc..c.pc + 2][0] == OP_SET_LOCAL && m.code[c.pc..c.pc + 2][1] == k;
    assert m.Strict(1, c) == m.StrictStep(c);
  }

  lemma StepGetGlobal(m: Vm, c: Conf, k: byte, name: string)
    requires c.Running? && At(m.code, c.pc, [OP_GET_GLOBAL, k]) && |c.stack| < STACK_MAX
    requires k < |m.constants| && m.constants[k] == Str(name)
    ensures m.Strict(1, c) ==
      if name in c.globals then c.(pc := c.pc + 2, stack := c.stack + [c.globals[name]])
      else Halted(RuntimeError, c.globals, c.out)
  {
    assert m.code[c.pc..c.pc + 2][0] == OP_GET_GLOBAL && m.code[c.pc..c.pc + 2][1] == k;
    assert m.Strict(1, c) == m.StrictStep(c);
  }

  lemma StepSetGlobal(m: Vm, c: Conf, k: byte, name: string)
    requires c.Running? && At(m.code, c.pc, [OP_SET_GLOBAL, k]) && 0 < |c.stack| <= STACK_MAX
    requires k < |m.constants| && m.constants[k] == Str(name)
    ensures m.Strict(1, c) ==
      Running(c.pc + 2, c.stack, c.globals[name := c.stack[|c.stack| - 1]], c.out)
  {
    assert m.code[c.pc..c.pc + 2][0] == OP_SET_GLOBAL && m.code[c.pc..c.pc + 2][1] == k;
    assert m.Strict(1, c) == m.StrictStep(c);
  }

  /** What an operator's result does to the machine. */
  function AfterResult(c: Conf, pc: int, below: seq<Value>, r: OpResult): Conf
    requires c.Running?
  {
    match r
    case Val(v) => Running(pc, below + [v], c.globals, c.out)
    case Err(k) => Halted(k, c.globals, c.out)
  }

  lemma StepBinary(m: Vm, c: Conf, op: BinOp, below: seq<Value>, a: Value, b: Value)
    requires c.Running? && At(m.code, c.pc, [BinaryOpcode(op)])
    requires c.stack == below + [a, b] && |c.stack| <= STACK_MAX
    ensures m.Strict(1, c) == AfterResult(c, c.pc + 1, below, ApplyBinary(m.prims, op, a, b))
  {
    hide ApplyBinary;
    var code := BinaryOpcode(op);
    assert m.code[c.pc..c.pc + 1][0] == code;
    assert IsBinaryOpcode(code) && BinaryOf(code) == op;
    assert Vm.Popped(c.stack) == below + [a];
    assert Vm.Popped(below + [a]) == below;
    assert m.Strict(1, c) == m.StrictStep(c);
  }

  lemma StepUnary(m: Vm, c: Conf, op: UnOp, below: seq<Value>, a: Value)
    requires c.Running? && At(m.code, c.pc, [UnaryOpcode(op)])
    requires c.stack == below + [a] && |c.stack| <= STACK_MAX
    ensures m.Strict(1, c) == AfterResult(c, c.pc + 1, below, ApplyUnary(m.prims, op, a))
  {
    hide ApplyUnary;
    assert m.code[c.pc..c.pc + 1][0] == UnaryOpcode(op);
    assert Vm.Popped(c.stack) == below;
    assert m.Strict(1, c) == m.StrictStep(c);
  }

  lemma StepArray(m: Vm, c: Conf, below: seq<Value>, vs: seq<Value>)
    requires |vs| <= 255 && c.Running? && At(m.code, c.pc, [OP_ARRAY, |vs|])
    requires c.stack == below + vs && |c.stack| <= STACK_MAX && |below| < STACK_MAX
    ensures m.Strict(1, c) == c.(pc := c.pc + 2, stack := below + [Arr(vs)])
  {
    assert m.code[c.pc..c.pc + 2][0] == OP_ARRAY && m.code[c.pc..c.pc + 2][1] == |vs|;
    assert c.stack[..|c.stack| - |vs|] == below && c.stack[|c.stack| - |vs|..] == vs;
    assert m.Strict(1, c) == m.StrictStep(c);
  }

  lemma StepCall(m: Vm, c: Conf, below: seq<Value>, callee: Value, vs: seq<Value>)
    requires |vs| <= 255 && c.Running? && At(m.code, c.pc, [OP_CALL, |vs|])
    requires c.stack == below + [callee] + vs && |c.stack| <= STACK_MAX
    ensures m.Strict(1, c) ==
      match callee
      case Fn(fn) =>
        var (v, printed) := CallNative(m.prims, fn, vs);
        Running(c.pc + 2, below + [v], c.globals, c.out + printed)
      case Nil => Running(c.pc + 2, below + [Nil], c.globals, c.out)
      case _ => Halted(RuntimeError, c.globals, c.out)
  {
    hide CallNative;
    assert m.code[c.pc..c.pc + 2][0] == OP_CALL && m.code[c.pc..c.pc + 2][1] == |vs|;
    assert c.stack[..|below|] == below && c.stack[|below|] == callee && c.stack[|below| + 1..] == vs;
    assert m.Strict(1, c) == m.StrictStep(c);
  }

  // ----- expressions -----

  /** Where running an expression's code ends up. */
  predicate Reaches(m: Vm, n: nat, c: Conf, r: EResult, pc: int, residue: seq<Value>, temps: seq<Value>) {
    match r
    case EVal(v, st) => m.Strict(n, c) == Config(pc, residue, st, temps + [v])
    case EFail(ending, st) => m.Strict(n, c) == Halted(ending, st.globals, st.out)
  }

  lemma SimVariable(m: Vm, name: string, s: Static, pc: int, st: State, residue: seq<Value>, temps: seq<Value>)
    requires Matches(s, st, residue)
    requires Placed(m, pc, Variable(OP_GET_LOCAL, OP_GET_GLOBAL, name, s))
    requires |residue| + |st.vals| + |temps| < STACK_MAX
    ensures Reaches(m, 1, Config(pc, residue, st, temps), Eval(m.prims, Ident(name), st), pc + 2, residue, temps)
  {
    var slot := Resolve(s, name);
    var c := Config(pc, residue, st, temps);
    if slot >= 0 {
      assert residue + st.vals + temps == st.vals + temps;
      StepGetLocal(m, c, slot);
      assert c.stack + [st.vals[slot]] == residue + st.vals + (temps + [st.vals[slot]]);
    } else {
      var k := |s.constants|;
      StepGetGlobal(m, c, k, name);
      if name in st.globals {
        assert c.stack + [st.globals[name]] == residue + st.vals + (temps + [st.globals[name]]);
      }
    }
  }

  /** Assignment stores the top value and keeps it on the stack. */
  lemma SimStore(m: Vm, name: string, v: Value, s: Static, pc: int, st: State, residue: seq<Value>, temps: seq<Value>)
    requires Matches(s, st, residue)
    requires Placed(m, pc, Variable(OP_SET_LOCAL, OP_SET_GLOBAL, name, s))
    requires |residue| + |st.vals| + |temps| < STACK_MAX
    ensures m.Strict(1, Config(pc, residue, st, temps + [v])) ==
      Config(pc + 2, residue, Store(st, name, v), temps + [v])
  {
    hide Vm.Strict, FindLast;
    var slot := Resolve(s, name);
    var c := Config(pc, residue, st, temps + [v]);
    if slot >= 0 {
      assert c.stack == st.vals + (temps + [v]);
      StepSetLocal(m, c, slot);
      assert c.stack[slot := v] == residue + st.vals[slot := v] + (temps + [v]);
    } else {
      StepSetGlobal(m, c, |s.constants|, name);
    }
  }

  lemma SimLiteral(m: Vm, v: Value, s: Static, pc: int, st: State, residue: seq<Value>, temps: seq<Value>)
    requires Placed(m, pc, WithConstant(OP_CONSTANT, v, s))
    requires |residue| + |st.vals| + |temps| < STACK_MAX
    ensures m.Strict(1, Config(pc, residue, st, temps)) == Config(pc + 2, residue, st, temps + [v])
  {
    StepConstant(m, Config(pc, residue, st, temps), |s.constants|);
    assert residue + st.vals + temps + [v] == residue + st.vals + (temps + [v]);
  }

  lemma SimPush(m: Vm, op: byte, v: Value, pc: int, st: State, residue: seq<Value>, temps: seq<Value>)
    requires At(m.code, pc, [op])
    requires (op, v) == (OP_TRUE, Bool(true)) || (op, v) == (OP_FALSE, Bool(false)) || (op, v) == (OP_NIL, Nil)
    requires |residue| + |st.vals| + |temps| < STACK_MAX
    ensures m.Strict(1, Config(pc, residue, st, temps)) == Config(pc + 1, residue, st, temps + [v])
  {
    StepPush(m, Config(pc, residue, st, temps), op, v);
    assert residue + st.vals + temps + [v] == residue + st.vals + (temps + [v]);
  }

  lemma {:induction false} SimExpr(m: Vm, e: Expr, s: Static, pc: int, st: State, residue: seq<Value>,
      temps: seq<Value>)
    returns (n: nat)
    requires SupportedExpr(e) && Matches(s, st, residue)
    requires Placed(m, pc, GenExpr(e, s))
    requires |residue| + |st.vals| + |temps| + Need(e) <= STACK_MAX
    ensures Reaches(m, n, Config(pc, residue, st, temps), Eval(m.prims, e, st), pc + |GenExpr(e, s).code|, residue,
      temps)
    decreases e, 1
  {
    hide Vm.Strict;
    n := 1;
    match e
    case IntLit(k) => SimLiteral(m, Int(k), s, pc, st, residue, temps);
    case FloatLit(f) => SimLiteral(m, Flt(f), s, pc, st, residue, temps);
    case StringLit(t) => SimLiteral(m, Str(t), s, pc, st, residue, temps);
    case BoolLit(b) => SimPush(m, if b then OP_TRUE else OP_FALSE, Bool(b), pc, st, residue, temps);
    case NilLit => SimPush(m, OP_NIL, Nil, pc, st, residue, temps);
    case Ident(x) => SimVariable(m, x, s, pc, st, residue, temps);
    case Binary(_, _, _) => n := SimBinary(m, e, s, pc, st, residue, temps);
    case Unary(_, _) => n := SimUnary(m, e, s, pc, st, residue, temps);
    case Call(_, _) => n := SimCall(m, e, s, pc, st, residue, temps);
    case ArrayLit(_) => n := SimArray(m, e, s, pc, st, residue, temps);
    case Assign(_, _) => n := SimAssign(m, e, s, pc, st, residue, temps);
  }

  lemma UnaryParts(P: Prims, e: Expr, s: Static, st: State)
    requires e.Unary? && SupportedExpr(e) && WellFormed(st)
    ensures SupportedExpr(e.operand) && Need(e.operand) == Need(e)
    ensures
      var g := GenExpr(e.operand, s);
      GenExpr(e, s) == Emitted(g.code + [UnaryOpcode(e.unop)], g.s)
    ensures
      var a := Eval(P, e.operand, st);
      Eval(P, e, st) == if a.EFail? then a else Finish(ApplyUnary(P, e.unop, a.v), a.st)
  {
    hide ApplyUnary, UnaryOpcode;
  }

  lemma {:induction false} SimUnary(m: Vm, e: Expr, s: Static, pc: int, st: State, residue: seq<Value>,
      temps: seq<Value>)
    returns (n: nat)
    requires e.Unary? && SupportedExpr(e) && Matches(s, st, residue)
    requires Placed(m, pc, GenExpr(e, s))
    requires |residue| + |st.vals| + |temps| + Need(e) <= STACK_MAX
    ensures Reaches(m, n, Config(pc, residue, st, temps), Eval(m.prims, e, st), pc + |GenExpr(e, s).code|, residue,
      temps)
    decreases e, 0
  {
    hide Vm.Strict, ApplyUnary, UnaryOpcode, Eval, GenExpr, Need, SupportedExpr;
    var c := Config(pc, residue, st, temps);
    UnaryParts(m.prims, e, s, st);
    var g := GenExpr(e.operand, s);
    AtSplit(m.code, pc, g.code, [UnaryOpcode(e.unop)]);
    n := SimExpr(m, e.operand, s, pc, st, residue, temps);
    var r := Eval(m.prims, e.operand, st);
    if r.EVal? {
      var c1 := Config(pc + |g.code|, residue, r.st, temps + [r.v]);
      var below := residue + r.st.vals + temps;
      assert c1.stack == below + [r.v];
      StepUnary(m, c1, e.unop, below, r.v);
      m.StrictAdd(n, 1, c);
      PushTemp(residue, r.st, temps);
      n := n + 1;
    }
  }

  lemma ArrayParts(P: Prims, e: Expr, s: Static, st: State)
    requires e.ArrayLit? && SupportedExpr(e) && WellFormed(st)
    ensures SupportedExprs(e.elements) && |e.elements| <= 255
    ensures NeedAll(e.elements) <= Need(e)
    ensures
      var g := GenExprs(e.elements, s);
      GenExpr(e, s) == Emitted(g.code + [OP_ARRAY, |e.elements|], g.s)
    ensures
      var a := EvalAll(P, e.elements, st);
      Eval(P, e, st) == if a.EsFail? then EFail(a.ending, a.failed) else EVal(Arr(a.vs), a.st)
  {
  }

  lemma {:induction false} SimArray(m: Vm, e: Expr, s: Static, pc: int, st: State, residue: seq<Value>,
      temps: seq<Value>)
    returns (n: nat)
    requires e.ArrayLit? && SupportedExpr(e) && Matches(s, st, residue)
    requires Placed(m, pc, GenExpr(e, s))
    requires |residue| + |st.vals| + |temps| + Need(e) <= STACK_MAX
    ensures Reaches(m, n, Config(pc, residue, st, temps), Eval(m.prims, e, st), pc + |GenExpr(e, s).code|, residue,
      temps)
    decreases e, 0
  {
    hide Vm.Strict, Eval, EvalAll, GenExpr, GenExprs, Need, NeedAll, SupportedExpr, SupportedExprs;
    var c := Config(pc, residue, st, temps);
    ArrayParts(m.prims, e, s, st);
    var g := GenExprs(e.elements, s);
    AtSplit(m.code, pc, g.code, [OP_ARRAY, |e.elements|]);
    n := SimExprs(m, e.elements, s, pc, st, residue, temps);
    var r := EvalAll(m.prims, e.elements, st);
    if r.EVals? {
      var c1 := Config(pc + |g.code|, residue, r.st, temps + r.vs);
      var below := residue + r.st.vals + temps;
      assert c1.stack == below + r.vs;
      NeedAllLength(e.elements);
      StepArray(m, c1, below, r.vs);
      m.StrictAdd(n, 1, c);
      PushTemp(residue, r.st, temps);
      n := n + 1;
    }
  }

  lemma AssignParts(P: Prims, e: Expr, s: Static, st: State)
    requires e.Assign? && SupportedExpr(e) && WellFormed(st)
    ensures e.target.Ident? && SupportedExpr(e.source) && Need(e.source) == Need(e)
    ensures
      var g := GenExpr(e.source, s);
      var h := Variable(OP_SET_LOCAL, OP_SET_GLOBAL, e.target.name, g.s);
      GenExpr(e, s) == Emitted(g.code + h.code, h.s)
    ensures
      var a := Eval(P, e.source, st);
      Eval(P, e, st) == if a.EFail? then a else EVal(a.v, Store(a.st, e.target.name, a.v))
  {
  }

  lemma {:induction false} SimAssign(m: Vm, e: Expr, s: Static, pc: int, st: State, residue: seq<Value>,
      temps: seq<Value>)
    returns (n: nat)
    requires e.Assign? && SupportedExpr(e) && Matches(s, st, residue)
    requires Placed(m, pc, GenExpr(e, s))
    requires |residue| + |st.vals| + |temps| + Need(e) <= STACK_MAX
    ensures Reaches(m, n, Config(pc, residue, st, temps), Eval(m.prims, e, st), pc + |GenExpr(e, s).code|, residue,
      temps)
    decreases e, 0
  {
    hide Vm.Strict, Eval, GenExpr, Need, SupportedExpr;
    var c := Config(pc, residue, st, temps);
    AssignParts(m.prims, e, s, st);
    var name := e.target.name;
    var g := GenExpr(e.source, s);
    var h := Variable(OP_SET_LOCAL, OP_SET_GLOBAL, name, g.s);
    AtSplit(m.code, pc, g.code, h.code);
    GenExprStatic(e.source, s);
    n := SimExpr(m, e.source, s, pc, st, residue, temps);
    var r := Eval(m.prims, e.source, st);
    if r.EVal? {
      SimStore(m, name, r.v, g.s, pc + |g.code|, r.st, residue, temps);
      m.StrictAdd(n, 1, c);
      n := n + 1;
    }
  }

  lemma PushTemp(residue: seq<Value>, st: State, temps: seq<Value>)
    ensures forall v :: residue + st.vals + temps + [v] == residue + st.vals + (temps + [v])
  {
    forall v
      ensures residue + st.vals + temps + [v] == residue + st.vals + (temps + [v])
    {
    }
  }

  lemma {:induction false} NeedAllLength(es: seq<Expr>)
    ensures NeedAll(es) >= |es|
  {
    if es != [] {
      NeedAllLength(es[1..]);
    }
  }

  lemma BinaryParts(P: Prims, e: Expr, s: Static, st: State)
    requires e.Binary? && SupportedExpr(e) && WellFormed(st)
    ensures SupportedExpr(e.left) && SupportedExpr(e.right)
    ensures Need(e.left) <= Need(e) && 1 + Need(e.right) <= Need(e)
    ensures
      var g := GenExpr(e.left, s);
      var h := GenExpr(e.right, g.s);
      GenExpr(e, s) == Emitted(g.code + h.code + [BinaryOpcode(e.op)], h.s)
    ensures
      var a := Eval(P, e.left, st);
      Eval(P, e, st) ==
      if a.EFail? then a
      else
        var b := Eval(P, e.right, a.st);
        if b.EFail? then b else Finish(ApplyBinary(P, e.op, a.v, b.v), b.st)
  {
    hide ApplyBinary, BinaryOpcode;
  }

  lemma {:induction false} SimBinary(m: Vm, e: Expr, s: Static, pc: int, st: State, residue: seq<Value>,
      temps: seq<Value>)
    returns (n: nat)
    requires e.Binary? && SupportedExpr(e) && Matches(s, st, residue)
    requires Placed(m, pc, GenExpr(e, s))
    requires |residue| + |st.vals| + |temps| + Need(e) <= STACK_MAX
    ensures Reaches(m, n, Config(pc, residue, st, temps), Eval(m.prims, e, st), pc + |GenExpr(e, s).code|, residue,
      temps)
    decreases e, 0
  {
    hide Vm.Strict, ApplyBinary, BinaryOpcode, Eval, GenExpr, Need, SupportedExpr;
    var c := Config(pc, residue, st, temps);
    BinaryParts(m.prims, e, s, st);
    var g := GenExpr(e.left, s);
    var h := GenExpr(e.right, g.s);
    AtSplit(m.code, pc, g.code + h.code, [BinaryOpcode(e.op)]);
    AtSplit(m.code, pc, g.code, h.code);
    GenExprStatic(e.left, s);
    GenExprStatic(e.right, g.s);
    n := SimExpr(m, e.left, s, pc, st, residue, temps);
    var a := Eval(m.prims, e.left, st);
    if a.EVal? {
      var n1 := SimExpr(m, e.right, g.s, pc + |g.code|, a.st, residue, temps + [a.v]);
      m.StrictAdd(n, n1, c);
      n := n + n1;
      var b := Eval(m.prims, e.right, a.st);
      if b.EVal? {
        var c2 := Config(pc + |g.code + h.code|, residue, b.st, temps + [a.v] + [b.v]);
        var below := residue + b.st.vals + temps;
        assert c2.stack == below + [a.v, b.v];
        StepBinary(m, c2, e.op, below, a.v, b.v);
        m.StrictAdd(n, 1, c);
        PushTemp(residue, b.st, temps);
        n := n + 1;
      }
    }
  }

  lemma CallParts(P: Prims, e: Expr, s: Static, st: State)
    requires e.Call? && SupportedExpr(e) && WellFormed(st)
    ensures SupportedExpr(e.callee) && SupportedExprs(e.args) && |e.args| <= 255
    ensures Need(e.callee) <= Need(e) && 1 + NeedAll(e.args) <= Need(e)
    ensures
      var g := GenExpr(e.callee, s);
      var h := GenExprs(e.args, g.s);
      GenExpr(e, s) == Emitted(g.code + h.code + [OP_CALL, |e.args|], h.s)
    ensures
      var a := Eval(P, e.callee, st);
      Eval(P, e, st) ==
      if a.EFail? then a
      else
        var b := EvalAll(P, e.args, a.st);
        if b.EsFail? then EFail(b.ending, b.failed) else Invoke(P, a.v, b.vs, b.st)
  {
    hide CallNative;
  }

  lemma {:induction false} SimCall(m: Vm, e: Expr, s: Static, pc: int, st: State, residue: seq<Value>,
      temps: seq<Value>)
    returns (n: nat)
    requires e.Call? && SupportedExpr(e) && Matches(s, st, residue)
    requires Placed(m, pc, GenExpr(e, s))
    requires |residue| + |st.vals| + |temps| + Need(e) <= STACK_MAX
    ensures Reaches(m, n, Config(pc, residue, st, temps), Eval(m.prims, e, st), pc + |GenExpr(e, s).code|, residue,
      temps)
    decreases e, 0
  {
    hide Vm.Strict, CallNative, Eval, EvalAll, GenExpr, GenExprs, Need, NeedAll, SupportedExpr, SupportedExprs;
    var c := Config(pc, residue, st, temps);
    CallParts(m.prims, e, s, st);
    var g := GenExpr(e.callee, s);
    var h := GenExprs(e.args, g.s);
    AtSplit(m.code, pc, g.code + h.code, [OP_CALL, |e.args|]);
    AtSplit(m.code, pc, g.code, h.code);
    GenExprStatic(e.callee, s);
    GenExprsStatic(e.args, g.s);
    n := SimExpr(m, e.callee, s, pc, st, residue, temps);
    var a := Eval(m.prims, e.callee, st);
    if a.EVal? {
      var n1 := SimExprs(m, e.args, g.s, pc + |g.code|, a.st, residue, temps + [a.v]);
      m.StrictAdd(n, n1, c);
      n := n + n1;
      var b := EvalAll(m.prims, e.args, a.st);
      if b.EVals? {
        var c2 := Config(pc + |g.code + h.code|, residue, b.st, temps + [a.v] + b.vs);
        var below := residue + b.st.vals + temps;
        assert c2.stack == below + [a.v] + b.vs;
        NeedAllLength(e.args);
        StepCall(m, c2, below, a.v, b.vs);
        m.StrictAdd(n, 1, c);
        PushTemp(residue, b.st, temps);
        n := n + 1;
      }
    }
  }

  lemma {:induction false} SimExprs(m: Vm, es: seq<Expr>, s: Static, pc: int, st: State, residue: seq<Value>,
      temps: seq<Value>)
    returns (n: nat)
    requires SupportedExprs(es) && Matches(s, st, residue)
    requires Placed(m, pc, GenExprs(es, s))
    requires |residue| + |st.vals| + |temps| + NeedAll(es) <= STACK_MAX
    ensures
      match EvalAll(m.prims, es, st)
      case EVals(vs, st') =>
        m.Strict(n, Config(pc, residue, st, temps)) == Config(pc + |GenExprs(es, s).code|, residue, st', temps + vs)
      case EsFail(ending, st') =>
        m.Strict(n, Config(pc, residue, st, temps)) == Halted(ending, st'.globals, st'.out)
    decreases es, 0
  {
    hide Vm.Strict, Eval, GenExpr, Need, SupportedExpr;
    var c := Config(pc, residue, st, temps);
    if es == [] {
      n := 0;
      m.StrictZero(c);
      assert temps + [] == temps;
    } else {
      var g := GenExpr(es[0], s);
      var h := GenExprs(es[1..], g.s);
      AtSplit(m.code, pc, g.code, h.code);
      GenExprStatic(es[0], s);
      GenExprsStatic(es[1..], g.s);
      n := SimExpr(m, es[0], s, pc, st, residue, temps);
      var a := Eval(m.prims, es[0], st);
      if a.EVal? {
        var n1 := SimExprs(m, es[1..], g.s, pc + |g.code|, a.st, residue, temps + [a.v]);
        m.StrictAdd(n, n1, c);
        n := n + n1;
        var b := EvalAll(m.prims, es[1..], a.st);
        if b.EVals? {
          assert temps + [a.v] + b.vs == temps + ([a.v] + b.vs);
        }
      }
    }
  }
}
