/** Every place in compiled code has one stack height, which can be read off the code. */
module Heights {
  import opened Wrappers
  import opened Values
  import opened Bytecode
  import opened Ast
  import opened Semantics
  import opened CodeGen
  import opened Machine
  import opened ExprCorrect
  import opened StmtCorrect
  import opened CompilerCorrect
  import opened Debug
  import opened Depth

  // ----- heights -----

  /** How much higher the stack is for the next instruction in the text. The one behind
      a jump that is always taken, or behind a return, is only reached from elsewhere. */
  function Delta(op: byte, k: nat): int {
    if op == OP_JUMP || op == OP_JUMP_BACK then 1
    else if op == OP_RETURN then -1
    else Vm.Effect(op, k).1 - Vm.Effect(op, k).0
  }

  function Operand(code: seq<byte>, a: nat): nat
    requires a < |code|
  {
    if OperandBytes(code[a]) == 1 && a + 1 < |code| then code[a + 1] else 0
  }

  /** The change by the instruction at `a`. At the places `D` the value that a declaration
      stores is from then on counted as left behind. */
  function Change(D: set<int>, a: int, op: byte, k: nat): int {
    if op == OP_SET_GLOBAL && a in D then -1 else Delta(op, k)
  }

  /** The sum of the changes from `a` to `b`. */
  function Net(code: seq<byte>, D: set<int>, a: nat, b: int): int
    decreases b - a
  {
    if a >= b || a >= |code| then 0
    else Change(D, a, code[a], Operand(code, a)) + Net(code, D, a + Width(code[a]), b)
  }

  lemma {:induction false} NetSplit(code: seq<byte>, D: set<int>, a: nat, b: int, c: int)
    requires Boundary(code, a, b) && Boundary(code, b, c)
    ensures Net(code, D, a, c) == Net(code, D, a, b) + Net(code, D, b, c)
    decreases b - a
  {
    BoundaryOrder(code, a, b);
    BoundaryOrder(code, b, c);
    if a != b {
      NetSplit(code, D, a + Width(code[a]), b, c);
    }
  }

  /** A jump at `s` leads to a place of the same height. */
  predicate Leads(code: seq<byte>, D: set<int>, s: int) {
    && 0 <= s < |code| && s + Width(code[s]) <= |code|
    && forall t :: t in Targets(code, s) ==> Net(code, D, 0, t) == Net(code, D, 0, s)
  }

  predicate Level(code: seq<byte>, D: set<int>, a: int, b: int) {
    forall s :: a <= s < b && Boundary(code, a, s) ==> Leads(code, D, s)
  }

  /** The walk goes through `a` and `b`, and the height at `b` is `d` more. */
  predicate Climbs(code: seq<byte>, D: set<int>, a: int, b: int, d: int) {
    && Boundary(code, 0, a) && Boundary(code, a, b) && Boundary(code, 0, b)
    && Net(code, D, 0, b) == Net(code, D, 0, a) + d
  }

  /** Besides, all jumps between them lead to places of their own height. */
  predicate Rises(code: seq<byte>, D: set<int>, a: int, b: int, d: int) {
    Climbs(code, D, a, b, d) && Level(code, D, a, b)
  }

  lemma ClimbsTrans(code: seq<byte>, D: set<int>, a: int, b: int, c: int, d: int, e: int)
    requires Climbs(code, D, a, b, d) && Climbs(code, D, b, c, e)
    ensures Climbs(code, D, a, c, d + e)
  {
    hide Net;
    BoundaryTrans(code, a, b, c);
  }

  lemma LevelTrans(code: seq<byte>, D: set<int>, a: int, b: int, c: int)
    requires Boundary(code, a, b) && Level(code, D, a, b) && Level(code, D, b, c)
    ensures Level(code, D, a, c)
  {
    hide Leads;
    forall s | a <= s < c && Boundary(code, a, s)
      ensures Leads(code, D, s)
    {
      if b <= s {
        BoundarySplit(code, a, b, s);
      }
    }
  }

  lemma RisesTrans(code: seq<byte>, D: set<int>, a: int, b: int, c: int, d: int, e: int)
    requires Rises(code, D, a, b, d) && Rises(code, D, b, c, e)
    ensures Rises(code, D, a, c, d + e)
  {
    hide Level, Climbs;
    ClimbsTrans(code, D, a, b, c, d, e);
    assert Boundary(code, a, b) by { ClimbsEnds(code, D, a, b, d); }
    LevelTrans(code, D, a, b, c);
  }

  lemma ClimbsEnds(code: seq<byte>, D: set<int>, a: int, b: int, d: int)
    requires Climbs(code, D, a, b, d)
    ensures Boundary(code, a, b) && Boundary(code, 0, b) && 0 <= a <= b
  {
    BoundaryOrder(code, 0, a);
    BoundaryOrder(code, a, b);
  }

  lemma RisesNothing(code: seq<byte>, D: set<int>, a: int)
    requires Boundary(code, 0, a)
    ensures Rises(code, D, a, a, 0)
  {
  }

  /** One instruction. */
  lemma ClimbsOne(code: seq<byte>, D: set<int>, a: int)
    requires Boundary(code, 0, a) && 0 <= a < |code|
    ensures Climbs(code, D, a, a + Width(code[a]), Change(D, a, code[a], Operand(code, a)))
  {
    hide Change, Width;
    var b := a + Width(code[a]);
    assert Boundary(code, b, b) && Boundary(code, a, b);
    BoundaryTrans(code, 0, a, b);
    NetSplit(code, D, 0, a, b);
    assert Net(code, D, b, b) == 0;
  }

  lemma RisesOne(code: seq<byte>, D: set<int>, a: int)
    requires Boundary(code, 0, a) && Leads(code, D, a)
    ensures Rises(code, D, a, a + Width(code[a]), Change(D, a, code[a], Operand(code, a)))
  {
    hide Change, Net, Leads, Climbs;
    assert 0 <= a < |code| by { LeadsPlace(code, D, a); }
    var b := a + Width(code[a]);
    ClimbsOne(code, D, a);
    forall s | a <= s < b && Boundary(code, a, s)
      ensures s == a
    {
      if s != a {
        BoundaryOrder(code, b, s);
      }
    }
  }

  lemma LeadsPlace(code: seq<byte>, D: set<int>, a: int)
    requires Leads(code, D, a)
    ensures 0 <= a < |code|
  {
  }

  lemma RisesByte(code: seq<byte>, D: set<int>, a: int, op: byte)
    requires Boundary(code, 0, a) && At(code, a, [op]) && OneByte(op)
    ensures Rises(code, D, a, a + 1, Delta(op, 0))
  {
    hide Delta, Net, Rises, Boundary;
    assert code[a..a + 1][0] == op;
    WidthsAgree(op);
    RisesOne(code, D, a);
  }

  lemma RisesPair(code: seq<byte>, D: set<int>, a: int, op: byte, k: byte)
    requires Boundary(code, 0, a) && At(code, a, [op, k]) && TwoBytes(op)
    ensures Rises(code, D, a, a + 2, Change(D, a, op, k))
  {
    hide Delta, Net, Rises, Boundary;
    var g := code[a..a + 2];
    assert g[0] == op && g[1] == k;
    WidthsAgree(op);
    RisesOne(code, D, a);
  }

  lemma AddByte(code: seq<byte>, D: set<int>, pc: int, g: seq<byte>, op: byte, d: int)
    requires At(code, pc, g + [op]) && OneByte(op) && Rises(code, D, pc, pc + |g|, d)
    ensures Rises(code, D, pc, pc + |g| + 1, d + Delta(op, 0))
  {
    hide Delta, Level, OneByte;
    AtSplit(code, pc, g, [op]);
    RisesByte(code, D, pc + |g|, op);
    RisesTrans(code, D, pc, pc + |g|, pc + |g| + 1, d, Delta(op, 0));
  }

  lemma AddPair(code: seq<byte>, D: set<int>, pc: int, g: seq<byte>, op: byte, k: byte, d: int)
    requires At(code, pc, g + [op, k]) && TwoBytes(op) && Rises(code, D, pc, pc + |g|, d)
    ensures Rises(code, D, pc, pc + |g| + 2, d + Change(D, pc + |g|, op, k))
  {
    hide Change, Level, TwoBytes;
    AtSplit(code, pc, g, [op, k]);
    RisesPair(code, D, pc + |g|, op, k);
    RisesTrans(code, D, pc, pc + |g|, pc + |g| + 2, d, Change(D, pc + |g|, op, k));
  }

  // ----- expressions -----

  lemma Deltas()
    ensures forall op: BinOp :: Delta(BinaryOpcode(op), 0) == -1
    ensures forall op: UnOp :: Delta(UnaryOpcode(op), 0) == 0
    ensures forall k: nat :: Delta(OP_CALL, k) == 0 - k && Delta(OP_ARRAY, k) == 1 - k
    ensures forall k: nat :: Delta(OP_SET_LOCAL, k) == 0 && Delta(OP_SET_GLOBAL, k) == 0
    ensures forall k: nat :: Delta(OP_CONSTANT, k) == 1 && Delta(OP_GET_LOCAL, k) == 1 && Delta(OP_GET_GLOBAL, k) == 1
    ensures Delta(OP_TRUE, 0) == 1 && Delta(OP_FALSE, 0) == 1 && Delta(OP_NIL, 0) == 1
    ensures Delta(OP_POP, 0) == -1 && Delta(OP_PRINT, 0) == -1 && Delta(OP_RETURN, 0) == -1
    ensures Delta(OP_LESS, 0) == -1 && Delta(OP_ADD, 0) == -1
    ensures Delta(OP_JUMP_IF_FALSE, 0) == 0 && Delta(OP_JUMP, 0) == 1 && Delta(OP_JUMP_BACK, 0) == 1
  {
  }

  /** No declaration stores its value between `a` and `b`. */
  predicate Free(D: set<int>, a: int, b: int) {
    forall x :: a <= x < b ==> x !in D
  }

  /** An expression leaves exactly one value more than there was. */
  lemma {:induction false} ExprRises(code: seq<byte>, D: set<int>, pc: int, e: Expr, s: Static)
    requires SupportedExpr(e) && At(code, pc, GenExpr(e, s).code) && Boundary(code, 0, pc) &&
      Free(D, pc, pc + |GenExpr(e, s).code|)
    ensures Rises(code, D, pc, pc + |GenExpr(e, s).code|, 1)
    decreases e, 1
  {
    hide Rises, Boundary, Delta, OneByte, TwoBytes, BinaryOpcode, UnaryOpcode, At, WithConstant;
    OpcodeWidths();
    Deltas();
    match e
    case Binary(_, _, _) => BinaryRises(code, D, pc, e, s);
    case Unary(op, x) =>
      var g := GenExpr(x, s);
      AtSplit(code, pc, g.code, [UnaryOpcode(op)]);
      ExprRises(code, D, pc, x, s);
      AddByte(code, D, pc, g.code, UnaryOpcode(op), 1);
    case Call(_, _) => CallRises(code, D, pc, e, s);
    case ArrayLit(es) =>
      var g := GenExprs(es, s);
      AtSplit(code, pc, g.code, [OP_ARRAY, |es| % 256]);
      ExprsRise(code, D, pc, es, s);
      AddPair(code, D, pc, g.code, OP_ARRAY, |es| % 256, |es|);
    case Assign(t, x) =>
      var g := GenExpr(x, s);
      var h := GenTarget(t, g.s);
      TargetCode(t, g.s);
      AtSplit(code, pc, g.code, h.code);
      ExprRises(code, D, pc, x, s);
      AddPair(code, D, pc, g.code, h.code[0], h.code[1], 1);
    case _ => LeafRises(code, D, pc, e, s);
  }

  lemma {:induction false} BinaryRises(code: seq<byte>, D: set<int>, pc: int, e: Expr, s: Static)
    requires e.Binary? && SupportedExpr(e) && At(code, pc, GenExpr(e, s).code) && Boundary(code, 0, pc) &&
      Free(D, pc, pc + |GenExpr(e, s).code|)
    ensures Rises(code, D, pc, pc + |GenExpr(e, s).code|, 1)
    decreases e, 0
  {
    hide Rises, Boundary, Delta, OneByte, TwoBytes, BinaryOpcode, At, GenExpr;
    OpcodeWidths();
    Deltas();
    var Binary(op, l, r) := e;
    BinaryCode(op, l, r, s);
    var g := GenExpr(l, s);
    var h := GenExpr(r, g.s);
    AtSplit(code, pc, g.code + h.code, [BinaryOpcode(op)]);
    AtSplit(code, pc, g.code, h.code);
    ExprRises(code, D, pc, l, s);
    RisesEnds(code, D, pc, pc + |g.code|, 1);
    ExprRises(code, D, pc + |g.code|, r, g.s);
    RisesTrans(code, D, pc, pc + |g.code|, pc + |g.code| + |h.code|, 1, 1);
    AddByte(code, D, pc, g.code + h.code, BinaryOpcode(op), 2);
  }

  lemma RisesEnds(code: seq<byte>, D: set<int>, a: int, b: int, d: int)
    requires Rises(code, D, a, b, d)
    ensures Boundary(code, 0, a) && Boundary(code, a, b) && Boundary(code, 0, b) && 0 <= a <= b
  {
    ClimbsEnds(code, D, a, b, d);
  }

  lemma {:induction false} CallRises(code: seq<byte>, D: set<int>, pc: int, e: Expr, s: Static)
    requires e.Call? && SupportedExpr(e) && At(code, pc, GenExpr(e, s).code) && Boundary(code, 0, pc) &&
      Free(D, pc, pc + |GenExpr(e, s).code|)
    ensures Rises(code, D, pc, pc + |GenExpr(e, s).code|, 1)
    decreases e, 0
  {
    hide Rises, Boundary, Delta, OneByte, TwoBytes, At, GenExpr, GenExprs;
    OpcodeWidths();
    Deltas();
    var Call(f, args) := e;
    CallCode(f, args, s);
    var g := GenExpr(f, s);
    var h := GenExprs(args, g.s);
    AtSplit(code, pc, g.code + h.code, [OP_CALL, |args| % 256]);
    AtSplit(code, pc, g.code, h.code);
    ExprRises(code, D, pc, f, s);
    RisesEnds(code, D, pc, pc + |g.code|, 1);
    ExprsRise(code, D, pc + |g.code|, args, g.s);
    RisesTrans(code, D, pc, pc + |g.code|, pc + |g.code| + |h.code|, 1, |args|);
    AddPair(code, D, pc, g.code + h.code, OP_CALL, |args| % 256, 1 + |args|);
  }

  lemma LeafRises(code: seq<byte>, D: set<int>, pc: int, e: Expr, s: Static)
    requires e.IntLit? || e.FloatLit? || e.StringLit? || e.BoolLit? || e.NilLit? || e.Ident?
    requires At(code, pc, GenExpr(e, s).code) && Boundary(code, 0, pc) && Free(D, pc, pc + |GenExpr(e, s).code|)
    ensures Rises(code, D, pc, pc + |GenExpr(e, s).code|, 1)
  {
    hide Rises, Boundary, Delta;
    OpcodeWidths();
    Deltas();
    var g := GenExpr(e, s);
    if e.BoolLit? || e.NilLit? {
      RisesByte(code, D, pc, g.code[0]);
    } else {
      assert g.code == [g.code[0], g.code[1]];
      RisesPair(code, D, pc, g.code[0], g.code[1]);
    }
  }

  lemma {:induction false} ExprsRise(code: seq<byte>, D: set<int>, pc: int, es: seq<Expr>, s: Static)
    requires SupportedExprs(es) && At(code, pc, GenExprs(es, s).code) && Boundary(code, 0, pc) &&
      Free(D, pc, pc + |GenExprs(es, s).code|)
    ensures Rises(code, D, pc, pc + |GenExprs(es, s).code|, |es|)
    decreases es, 0
  {
    hide Rises, Boundary, GenExpr, SupportedExpr;
    if es == [] {
      RisesNothing(code, D, pc);
    } else {
      var g := GenExpr(es[0], s);
      var h := GenExprs(es[1..], g.s);
      AtSplit(code, pc, g.code, h.code);
      ExprRises(code, D, pc, es[0], s);
      RisesEnds(code, D, pc, pc + |g.code|, 1);
      ExprsRise(code, D, pc + |g.code|, es[1..], g.s);
      RisesTrans(code, D, pc, pc + |g.code|, pc + |g.code| + |h.code|, 1, |es| - 1);
    }
  }

  lemma OptionRises(code: seq<byte>, D: set<int>, pc: int, e: Option<Expr>, s: Static)
    requires SupportedOption(e) && At(code, pc, GenOption(e, s).code) && Boundary(code, 0, pc) &&
      Free(D, pc, pc + |GenOption(e, s).code|)
    ensures Rises(code, D, pc, pc + |GenOption(e, s).code|, 1)
  {
    hide Rises, Boundary, GenExpr, SupportedExpr, Delta;
    OpcodeWidths();
    Deltas();
    if e.Some? {
      ExprRises(code, D, pc, e.value, s);
    } else {
      RisesByte(code, D, pc, OP_NIL);
    }
  }

  lemma {:induction false} PopsFall(code: seq<byte>, D: set<int>, pc: int, n: nat)
    requires At(code, pc, Pops(n)) && Boundary(code, 0, pc)
    ensures Rises(code, D, pc, pc + n, 0 - n)
  {
    hide Rises, Boundary, Delta, OneByte;
    OpcodeWidths();
    Deltas();
    if n == 0 {
      RisesNothing(code, D, pc);
    } else {
      assert Pops(n) == Pops(n - 1) + [OP_POP];
      AtSplit(code, pc, Pops(n - 1), [OP_POP]);
      PopsFall(code, D, pc, n - 1);
      AddByte(code, D, pc, Pops(n - 1), OP_POP, 1 - n);
    }
  }

  // ----- block variables -----

  /** Every loop leaves the stack as high as it found it, not counting, if `residue`, what
      declarations leave behind. */
  predicate Even(s: Stmt, depth: nat, residue: bool)
    decreases s, 1
  {
    match s
    case If(_, t, e) => Even(t, depth, residue) && (e.Some? ==> Even(e.value, depth, residue))
    case While(_, b) =>
      && b.Block? && (depth > 0 ==> NoDeclaration(b.stmts)) && (residue || !LeavesAny(b.stmts, depth))
      && EvenList(b.stmts, depth, residue)
    case For(_, _, _, b) => b.Block? && NoDeclaration(b.stmts) && EvenList(b.stmts, depth + 1, residue)
    case Block(ss) => EvenList(ss, depth + 1, residue)
    case Function(_, _, _, _) => depth == 0
    case _ => true
  }

  predicate EvenList(ss: seq<Stmt>, depth: nat, residue: bool)
    decreases ss, 0
  {
    ss == [] || (Even(ss[0], depth, residue) && EvenList(ss[1..], depth, residue))
  }

  lemma {:induction false} SteadyIsEven(s: Stmt, depth: nat)
    requires Steady(s, depth)
    ensures Even(s, depth, false)
    decreases s, 1
  {
    match s
    case If(_, t, e) =>
      SteadyIsEven(t, depth);
      if e.Some? {
        SteadyIsEven(e.value, depth);
      }
    case While(_, b) => SteadyListIsEven(b.stmts, depth);
    case For(_, _, _, b) => SteadyListIsEven(b.stmts, depth + 1);
    case Block(ss) => SteadyListIsEven(ss, depth + 1);
    case _ =>
  }

  lemma {:induction false} SteadyListIsEven(ss: seq<Stmt>, depth: nat)
    requires SteadyList(ss, depth)
    ensures EvenList(ss, depth, false)
    decreases ss, 0
  {
    if ss != [] {
      SteadyIsEven(ss[0], depth);
      SteadyListIsEven(ss[1..], depth);
    }
  }

  lemma {:induction false} AlignedIsEven(s: Stmt, depth: nat, dirty: bool, scoped: bool)
    requires Aligned(s, depth, dirty, scoped)
    ensures Even(s, depth, true)
    decreases s, 1
  {
    match s
    case If(_, t, e) =>
      AlignedIsEven(t, depth, dirty, scoped);
      if e.Some? {
        AlignedIsEven(e.value, depth, dirty, scoped);
      }
    case While(_, b) => AlignedListIsEven(b.stmts, depth, dirty || LeavesAny(b.stmts, depth), scoped);
    case For(_, _, _, b) => AlignedListIsEven(b.stmts, depth + 1, false, true);
    case Block(ss) => AlignedListIsEven(ss, depth + 1, dirty, scoped);
    case _ =>
  }

  lemma {:induction false} AlignedListIsEven(ss: seq<Stmt>, depth: nat, dirty: bool, scoped: bool)
    requires AlignedList(ss, depth, dirty, scoped)
    ensures EvenList(ss, depth, true)
    decreases ss, 0
  {
    if ss != [] {
      AlignedIsEven(ss[0], depth, dirty, scoped);
      AlignedListIsEven(ss[1..], depth, dirty || Leaves(ss[0], depth), scoped || Scopes(ss[0], depth));
    }
  }

  /** How much higher the stack is behind `s`, counted like that. */
  function Rise(s: Stmt, depth: nat, residue: bool): nat {
    if Scopes(s, depth) || (!residue && Leaves(s, depth)) then 1 else 0
  }

  function RiseList(ss: seq<Stmt>, depth: nat, residue: bool): nat {
    if ss == [] then 0 else Rise(ss[0], depth, residue) + RiseList(ss[1..], depth, residue)
  }

  lemma RiseFacts(s: Stmt, depth: nat, residue: bool)
    requires Even(s, depth, residue)
    ensures Rise(s, depth, residue) ==
      if (s.Let? && (depth > 0 || !residue)) || (s.Function? && !residue) then 1 else 0
  {
  }

  lemma {:induction false} NoRise(ss: seq<Stmt>, depth: nat, residue: bool)
    requires EvenList(ss, depth, residue) && (depth > 0 ==> NoDeclaration(ss)) && (residue || !LeavesAny(ss, depth))
    ensures RiseList(ss, depth, residue) == 0
  {
    if ss != [] {
      RiseFacts(ss[0], depth, residue);
      NoRise(ss[1..], depth, residue);
    }
  }

  lemma ScopeLocals(ss: seq<Stmt>, depth: nat, st: Static)
    requires Within(st.locals, depth)
    ensures GenStmt(Block(ss), depth, st).s.locals == st.locals
  {
    hide GenStmts, EndScope;
    GenStmtsStatic(ss, depth + 1, st);
    EndScopeRestores(GenStmts(ss, depth + 1, st), st.locals, depth);
  }

  /** Inside a block the table of locals grows by as much as the stack does. */
  lemma {:induction false} LocalsGrow(s: Stmt, depth: nat, st: Static, residue: bool)
    requires depth > 0 && Within(st.locals, depth) && Supported(s) && Even(s, depth, residue) &&
      !GenStmt(s, depth, st).s.err
    ensures |GenStmt(s, depth, st).s.locals| == |st.locals| + Rise(s, depth, residue)
    decreases s, 1
  {
    hide GenExpr, GenStmts, EndScope, Forward, Backward, GenForLoop, EvenList, SupportedList, SupportedExpr,
         NoDeclaration;
    match s
    case Let(_, init) => OptionStatic(init, st);
    case If(c, t, e) =>
      GenExprStatic(c, st);
      var h := GenStmt(t, depth, GenExpr(c, st).s);
      ScopeLocals(t.stmts, depth, GenExpr(c, st).s);
      if e.Some? {
        LocalsGrow(e.value, depth, TooFar(h.s, 1 + |h.code| + 3 > 0xffff), residue);
      }
    case While(c, b) =>
      GenExprStatic(c, st);
      NoRise(b.stmts, depth, residue);
      LocalsGrowList(b.stmts, depth, GenExpr(c, st).s, residue);
    case For(_, _, _, _) => GenForStatic(s, depth, st);
    case Block(ss) => ScopeLocals(ss, depth, st);
    case Return(r) => OptionStatic(r, st);
    case Print(e) => GenExprStatic(e, st);
    case ExprStmt(e) => GenExprStatic(e, st);
    case _ =>
  }

  lemma {:induction false} LocalsGrowList(ss: seq<Stmt>, depth: nat, st: Static, residue: bool)
    requires depth > 0 && Within(st.locals, depth) && SupportedList(ss) && EvenList(ss, depth, residue)
    requires !GenStmts(ss, depth, st).s.err
    ensures |GenStmts(ss, depth, st).s.locals| == |st.locals| + RiseList(ss, depth, residue)
    decreases ss, 0
  {
    hide GenStmt, Rise, Supported, Even;
    if ss != [] {
      var g := GenStmt(ss[0], depth, st);
      GenStmtStatic(ss[0], depth, st);
      GenStmtsStatic(ss[1..], depth, g.s);
      LocalsGrow(ss[0], depth, st, residue);
      LocalsGrowList(ss[1..], depth, g.s, residue);
    }
  }

  // ----- jumps -----

  lemma ForwardBytes(code: seq<byte>, a: int, op: byte, skip: nat)
    requires At(code, a, Forward(op, skip)) && skip <= 0xffff && (op == OP_JUMP || op == OP_JUMP_IF_FALSE)
    ensures a >= 0 && a + 3 <= |code| && code[a] == op && Width(op) == 3 && Operand(code, a) == 0
    ensures Targets(code, a) == {a + 3 + skip}
  {
    hide Hi, Lo, Short;
    var g := code[a..a + 3];
    assert g[0] == op && g[1] == Hi(skip) && g[2] == Lo(skip);
    ShortOf(skip);
  }

  lemma BackwardBytes(code: seq<byte>, a: int, skip: nat)
    requires At(code, a, Backward(skip)) && skip <= 0xffff
    ensures a >= 0 && a + 3 <= |code| && code[a] == OP_JUMP_BACK && Width(OP_JUMP_BACK) == 3 && Operand(code, a) == 0
    ensures Targets(code, a) == {a + 3 - skip}
  {
    hide Hi, Lo, Short;
    var g := code[a..a + 3];
    assert g[0] == OP_JUMP_BACK && g[1] == Hi(skip) && g[2] == Lo(skip);
    ShortOf(skip);
  }

  /** A jump and the pop behind it. */
  lemma JumpPop(code: seq<byte>, D: set<int>, a: int, op: byte, skip: nat)
    requires At(code, a, Forward(op, skip)) && skip <= 0xffff && (op == OP_JUMP || op == OP_JUMP_IF_FALSE)
    requires At(code, a + 3, [OP_POP]) && Boundary(code, 0, a)
    ensures Climbs(code, D, a, a + 3, Delta(op, 0)) && Rises(code, D, a + 3, a + 4, -1)
  {
    hide Delta, OneByte, Net, Level, Boundary;
    OpcodeWidths();
    Deltas();
    ForwardBytes(code, a, op, skip);
    ClimbsOne(code, D, a);
    RisesByte(code, D, a + 3, OP_POP);
  }

  /** A jump whose target has its own height. */
  lemma RisesForward(code: seq<byte>, D: set<int>, a: int, op: byte, skip: nat)
    requires At(code, a, Forward(op, skip)) && skip <= 0xffff && (op == OP_JUMP || op == OP_JUMP_IF_FALSE)
    requires Boundary(code, 0, a) && Net(code, D, 0, a + 3 + skip) == Net(code, D, 0, a)
    ensures Rises(code, D, a, a + 3, Delta(op, 0))
  {
    hide Delta, Net, Boundary, Targets, Width;
    ForwardBytes(code, a, op, skip);
    RisesOne(code, D, a);
  }

  lemma RisesBackward(code: seq<byte>, D: set<int>, a: int, skip: nat)
    requires At(code, a, Backward(skip)) && skip <= 0xffff
    requires Boundary(code, 0, a) && Net(code, D, 0, a + 3 - skip) == Net(code, D, 0, a)
    ensures Rises(code, D, a, a + 3, 1)
  {
    hide Net, Boundary, Targets, Width;
    BackwardBytes(code, a, skip);
    RisesOne(code, D, a);
  }

  /** A test that skips up to `to`, where both ways pop. */
  lemma TestFalls(code: seq<byte>, D: set<int>, test: int, to: int)
    requires test + 4 <= to <= test + 3 + 0xffff && At(code, test, Forward(OP_JUMP_IF_FALSE, to - test - 3))
    requires At(code, test + 3, [OP_POP]) && Rises(code, D, test + 4, to, 1) && At(code, to, [OP_POP])
    requires Boundary(code, 0, test)
    ensures Rises(code, D, test, to + 1, -1)
  {
    hide Delta, Level, OneByte, Net, Boundary, Forward;
    OpcodeWidths();
    Deltas();
    JumpPop(code, D, test, OP_JUMP_IF_FALSE, to - test - 3);
    RisesForward(code, D, test, OP_JUMP_IF_FALSE, to - test - 3);
    RisesTrans(code, D, test, test + 3, test + 4, 0, -1);
    RisesTrans(code, D, test, test + 4, to, -1, 1);
    RisesByte(code, D, to, OP_POP);
    RisesTrans(code, D, test, to, to + 1, 0, -1);
  }

  /** The two branches of an `if`. */
  lemma BranchesFall(code: seq<byte>, D: set<int>, test: int, jump: int, end: int)
    requires test + 4 <= jump && jump + 4 <= end && |code| <= 0xffff && 0 <= test && end <= |code|
    requires At(code, test, Forward(OP_JUMP_IF_FALSE, jump - test)) && At(code, test + 3, [OP_POP])
    requires Rises(code, D, test + 4, jump, 0) && At(code, jump, Forward(OP_JUMP, end - jump - 3))
    requires At(code, jump + 3, [OP_POP]) && Rises(code, D, jump + 4, end, 0) && Boundary(code, 0, test)
    ensures Rises(code, D, test, end, -1)
  {
    hide Delta, Level, OneByte, Net, Boundary, Forward;
    Deltas();
    JumpPop(code, D, jump, OP_JUMP, end - jump - 3);
    RisesForward(code, D, jump, OP_JUMP, end - jump - 3);
    RisesTrans(code, D, test + 4, jump, jump + 3, 0, 1);
    TestFalls(code, D, test, jump + 3);
    RisesTrans(code, D, test, jump + 4, end, -1, 0);
  }

  /** A loop: its last jump goes back to where the condition starts. */
  lemma RoundLevel(code: seq<byte>, D: set<int>, start: int, test: int, jump: int)
    requires 0 <= start <= test && test + 4 <= jump && jump + 4 <= |code| <= 0xffff
    requires Rises(code, D, start, test, 1) && At(code, test, Forward(OP_JUMP_IF_FALSE, jump - test)) &&
      At(code, test + 3, [OP_POP])
    requires Rises(code, D, test + 4, jump, 0) && At(code, jump, Backward(jump + 3 - start)) &&
      At(code, jump + 3, [OP_POP])
    ensures Rises(code, D, start, jump + 4, 0)
  {
    hide Delta, Level, OneByte, Net, Boundary, Forward, Backward;
    Deltas();
    JumpPop(code, D, test, OP_JUMP_IF_FALSE, jump - test);
    RisesBackward(code, D, jump, jump + 3 - start);
    RisesTrans(code, D, test + 4, jump, jump + 3, 0, 1);
    TestFalls(code, D, test, jump + 3);
    RisesTrans(code, D, start, test, jump + 4, 1, -1);
  }

  // ----- statements -----

  /** Where declarations store the values they leave behind; nowhere if these are not
      counted apart. */
  function Decls(s: Stmt, pc: int, depth: nat, st: Static, residue: bool): (E: set<int>)
    ensures !residue ==> E == {}
    decreases s, 1
  {
    if !residue then {}
    else
      match s
      case Let(_, init) => if depth == 0 then {pc + |GenOption(init, st).code|} else {}
      case Function(_, _, _, _) => if depth == 0 then {pc + 1} else {}
      case While(c, b) =>
        var g := GenExpr(c, st);
        if b.Block? then DeclsList(b.stmts, pc + |g.code| + 4, depth, g.s, residue) else {}
      case _ => {}
  }

  function DeclsList(ss: seq<Stmt>, pc: int, depth: nat, st: Static, residue: bool): set<int>
    decreases ss, 0
  {
    if ss == [] || !residue then {}
    else
      var g := GenStmt(ss[0], depth, st);
      Decls(ss[0], pc, depth, st, residue) + DeclsList(ss[1..], pc + |g.code|, depth, g.s, residue)
  }

  predicate Inside(E: set<int>, a: int, b: int) {
    forall x :: x in E ==> a <= x < b
  }

  lemma {:induction false} DeclsInside(s: Stmt, pc: int, depth: nat, st: Static, residue: bool)
    ensures Inside(Decls(s, pc, depth, st, residue), pc, pc + |GenStmt(s, depth, st).code|)
    decreases s, 1
  {
    hide GenExpr, GenStmts, Forward, Backward, GenForLoop;
    if residue && s.While? && s.body.Block? {
      var g := GenExpr(s.cond, st);
      GenWhile(s, depth, st);
      GenBodyBlock(s.body, depth, g.s);
      DeclsListInside(s.body.stmts, pc + |g.code| + 4, depth, g.s, residue);
    }
  }

  lemma {:induction false} DeclsListInside(ss: seq<Stmt>, pc: int, depth: nat, st: Static, residue: bool)
    ensures Inside(DeclsList(ss, pc, depth, st, residue), pc, pc + |GenStmts(ss, depth, st).code|)
    decreases ss, 0
  {
    hide GenStmt, Decls;
    if ss != [] {
      var g := GenStmt(ss[0], depth, st);
      DeclsInside(ss[0], pc, depth, st, residue);
      DeclsListInside(ss[1..], pc + |g.code|, depth, g.s, residue);
    }
  }

  lemma {:induction false} DeclsNone(s: Stmt, pc: int, depth: nat, st: Static, residue: bool)
    requires depth > 0
    ensures Decls(s, pc, depth, st, residue) == {}
    decreases s, 1
  {
    hide GenExpr;
    if s.While? && s.body.Block? {
      DeclsListNone(s.body.stmts, pc + |GenExpr(s.cond, st).code| + 4, depth, GenExpr(s.cond, st).s, residue);
    }
  }

  lemma {:induction false} DeclsListNone(ss: seq<Stmt>, pc: int, depth: nat, st: Static, residue: bool)
    requires depth > 0
    ensures DeclsList(ss, pc, depth, st, residue) == {}
    decreases ss, 0
  {
    hide GenStmt, Decls;
    if ss != [] {
      DeclsNone(ss[0], pc, depth, st, residue);
      DeclsListNone(ss[1..], pc + |GenStmt(ss[0], depth, st).code|, depth, GenStmt(ss[0], depth, st).s, residue);
    }
  }

  /** Between `a` and `b` these are the places in `D`. */
  predicate Marks(D: set<int>, a: int, b: int, E: set<int>) {
    forall x :: a <= x < b ==> (x in D <==> x in E)
  }

  lemma MarksSplit(D: set<int>, a: int, b: int, c: int, E: set<int>, F: set<int>)
    requires a <= b <= c && Marks(D, a, c, E + F) && Inside(E, a, b) && Inside(F, b, c)
    ensures Marks(D, a, b, E) && Marks(D, b, c, F)
  {
  }

  /** What statements are compiled from and to. */
  predicate Laid(code: seq<byte>, D: set<int>, pc: int, g: Emitted, depth: nat, st: Static, decls: set<int>) {
    && At(code, pc, g.code) && |code| <= 0xffff && !g.s.err && Within(st.locals, depth) && Boundary(code, 0, pc)
    && Marks(D, pc, pc + |g.code|, decls)
  }

  /** A statement leaves the stack as high as it was, or one higher if it declares. */
  lemma {:induction false} StmtRises(code: seq<byte>, D: set<int>, pc: int, s: Stmt, depth: nat, st: Static,
      residue: bool)
    requires Supported(s) && Even(s, depth, residue) && Balanced(s)
    requires Laid(code, D, pc, GenStmt(s, depth, st), depth, st, Decls(s, pc, depth, st, residue))
    ensures Rises(code, D, pc, pc + |GenStmt(s, depth, st).code|, Rise(s, depth, residue))
    decreases s, 1
  {
    hide Rises, GenStmt, Laid, Decls, Supported, Balanced;
    RiseFacts(s, depth, residue);
    match s
    case If(_, _, _) => IfLevel(code, D, pc, s, depth, st, residue);
    case While(_, _) => WhileLevel(code, D, pc, s, depth, st, residue);
    case For(_, _, _, _) => ForLevel(code, D, pc, s, depth, st, residue);
    case Block(_) => BlockLevel(code, D, pc, s, depth, st, residue);
    case Let(_, _) => DeclarationRises(code, D, pc, s, depth, st, residue);
    case Function(_, _, _, _) => DeclarationRises(code, D, pc, s, depth, st, residue);
    case _ => PlainLevel(code, D, pc, s, depth, st, residue);
  }

  lemma DeclarationRises(code: seq<byte>, D: set<int>, pc: int, s: Stmt, depth: nat, st: Static, residue: bool)
    requires (s.Let? || s.Function?) && Supported(s) && Even(s, depth, residue)
    requires Laid(code, D, pc, GenStmt(s, depth, st), depth, st, Decls(s, pc, depth, st, residue))
    ensures Rises(code, D, pc, pc + |GenStmt(s, depth, st).code|, if depth == 0 && residue then 0 else 1)
  {
    hide Rises, Boundary, Delta, OneByte, TwoBytes, At, GenExpr, WithConstant, SupportedExpr;
    OpcodeWidths();
    Deltas();
    if s.Function? {
      var h := ConstantCode(OP_SET_GLOBAL, Str(s.name), st);
      AtSplit(code, pc, [OP_NIL], h);
      RisesByte(code, D, pc, OP_NIL);
      AddPair(code, D, pc, [OP_NIL], h[0], h[1], 1);
    } else if depth > 0 {
      OptionRises(code, D, pc, s.init, st);
    } else {
      var g := GenOption(s.init, st);
      var h := ConstantCode(OP_SET_GLOBAL, Str(s.name), g.s);
      AtSplit(code, pc, g.code, h);
      OptionRises(code, D, pc, s.init, st);
      AddPair(code, D, pc, g.code, h[0], h[1], 1);
    }
  }

  lemma PlainLevel(code: seq<byte>, D: set<int>, pc: int, s: Stmt, depth: nat, st: Static, residue: bool)
    requires !s.If? && !s.While? && !s.For? && !s.Block? && !s.Let? && !s.Function? && Supported(s)
    requires Laid(code, D, pc, GenStmt(s, depth, st), depth, st, Decls(s, pc, depth, st, residue))
    ensures Rises(code, D, pc, pc + |GenStmt(s, depth, st).code|, 0)
  {
    hide Rises, Boundary, Delta, OneByte, At, GenExpr, SupportedExpr;
    OpcodeWidths();
    Deltas();
    match s
    case Return(r) =>
      var g := GenOption(r, st);
      AtSplit(code, pc, g.code, [OP_RETURN]);
      OptionRises(code, D, pc, r, st);
      AddByte(code, D, pc, g.code, OP_RETURN, 1);
    case Print(e) =>
      AtSplit(code, pc, GenExpr(e, st).code, [OP_PRINT]);
      ExprRises(code, D, pc, e, st);
      AddByte(code, D, pc, GenExpr(e, st).code, OP_PRINT, 1);
    case ExprStmt(e) =>
      AtSplit(code, pc, GenExpr(e, st).code, [OP_POP]);
      ExprRises(code, D, pc, e, st);
      AddByte(code, D, pc, GenExpr(e, st).code, OP_POP, 1);
    case _ => NotSupported(s);
  }

  lemma {:induction false} StmtsRise(code: seq<byte>, D: set<int>, pc: int, ss: seq<Stmt>, depth: nat, st: Static,
      residue: bool)
    requires SupportedList(ss) && EvenList(ss, depth, residue) && BalancedList(ss) &&
      Laid(code, D, pc, GenStmts(ss, depth, st), depth, st, DeclsList(ss, pc, depth, st, residue))
    ensures Rises(code, D, pc, pc + |GenStmts(ss, depth, st).code|, RiseList(ss, depth, residue))
    decreases ss, 0
  {
    hide Rises, Boundary, GenStmt, Supported, Even, Balanced, Rise, Decls;
    if ss == [] {
      RisesNothing(code, D, pc);
    } else {
      var g := GenStmt(ss[0], depth, st);
      var h := GenStmts(ss[1..], depth, g.s);
      AtSplit(code, pc, g.code, h.code);
      GenStmtStatic(ss[0], depth, st);
      GenStmtsStatic(ss[1..], depth, g.s);
      var mid := pc + |g.code|;
      DeclsInside(ss[0], pc, depth, st, residue);
      DeclsListInside(ss[1..], mid, depth, g.s, residue);
      MarksSplit(D, pc, mid, mid + |h.code|, Decls(ss[0], pc, depth, st, residue),
        DeclsList(ss[1..], mid, depth, g.s, residue));
      StmtRises(code, D, pc, ss[0], depth, st, residue);
      RisesEnds(code, D, pc, pc + |g.code|, Rise(ss[0], depth, residue));
      StmtsRise(code, D, pc + |g.code|, ss[1..], depth, g.s, residue);
      RisesTrans(code, D, pc, pc + |g.code|, pc + |g.code| + |h.code|, Rise(ss[0], depth, residue),
        RiseList(ss[1..], depth, residue));
    }
  }

  /** The pops at the end of a scope take away what its declarations have added. */
  lemma {:induction false} BlockLevel(code: seq<byte>, D: set<int>, pc: int, s: Stmt, depth: nat, st: Static,
      residue: bool)
    requires s.Block? && Supported(s) && Even(s, depth, residue) && Balanced(s) &&
      Laid(code, D, pc, GenStmt(s, depth, st), depth, st, Decls(s, pc, depth, st, residue))
    ensures Rises(code, D, pc, pc + |GenStmt(s, depth, st).code|, 0)
    decreases s, 0
  {
    hide Rises, Boundary, GenStmts, EndScope, Pops;
    var ss := s.stmts;
    var g := GenStmts(ss, depth + 1, st);
    var n := RiseList(ss, depth + 1, residue);
    GenStmtsStatic(ss, depth + 1, st);
    EndScopeRestores(g, st.locals, depth);
    LocalsGrowList(ss, depth + 1, st, residue);
    DeclsListNone(ss, pc, depth + 1, st, residue);
    AtSplit(code, pc, g.code, Pops(n));
    StmtsRise(code, D, pc, ss, depth + 1, st, residue);
    RisesEnds(code, D, pc, pc + |g.code|, n);
    PopsFall(code, D, pc + |g.code|, n);
    RisesTrans(code, D, pc, pc + |g.code|, pc + |g.code| + n, n, -(n as int));
  }

  lemma IfParts(s: Stmt, depth: nat, st: Static, residue: bool)
    requires s.If? && Supported(s) && Even(s, depth, residue) && Balanced(s)
    requires Within(st.locals, depth) && !GenStmt(s, depth, st).s.err
    ensures s.elseBranch.Some? && SupportedExpr(s.cond)
    ensures s.thenBranch.Block? && (s.elseBranch.value.Block? || s.elseBranch.value.If?)
    ensures var t := s.thenBranch;
      Supported(t) && Even(t, depth, residue) && Balanced(t) && Rise(t, depth, residue) == 0
    ensures var e := s.elseBranch.value;
      Supported(e) && Even(e, depth, residue) && Balanced(e) && Rise(e, depth, residue) == 0
    ensures
      var g := GenExpr(s.cond, st);
      var h := GenStmt(s.thenBranch, depth, g.s);
      var hs := TooFar(h.s, 1 + |h.code| + 3 > 0xffff);
      && Within(g.s.locals, depth) && Within(hs.locals, depth)
      && !h.s.err && !GenStmt(s.elseBranch.value, depth, hs).s.err
  {
    hide GenExpr, GenStmt, SupportedExpr;
    GenIfElse(s, depth, st);
    var g := GenExpr(s.cond, st);
    GenExprStatic(s.cond, st);
    GenStmtStatic(s.thenBranch, depth, g.s);
    var h := GenStmt(s.thenBranch, depth, g.s);
    GenStmtStatic(s.elseBranch.value, depth, TooFar(h.s, 1 + |h.code| + 3 > 0xffff));
  }

  lemma {:induction false} IfLevel(code: seq<byte>, D: set<int>, pc: int, s: Stmt, depth: nat, st: Static,
      residue: bool)
    requires s.If? && Supported(s) && Even(s, depth, residue) && Balanced(s) &&
      Laid(code, D, pc, GenStmt(s, depth, st), depth, st, Decls(s, pc, depth, st, residue))
    ensures Rises(code, D, pc, pc + |GenStmt(s, depth, st).code|, 0)
    decreases s, 0
  {
    hide Rises, Boundary, GenExpr, GenStmt, SupportedExpr, Supported, Even, Balanced, Within, Rise, Forward, At;
    IfParts(s, depth, st, residue);
    IfPlaces(code, pc, s, depth, st);
    var g := GenExpr(s.cond, st);
    var h := GenStmt(s.thenBranch, depth, g.s);
    var skip := 1 + |h.code| + 3;
    var hs := TooFar(h.s, skip > 0xffff);
    var w := GenStmt(s.elseBranch.value, depth, hs);
    var test := pc + |g.code|;
    var jump := test + 4 + |h.code|;
    ExprRises(code, D, pc, s.cond, st);
    RisesEnds(code, D, pc, test, 1);
    AfterJump(code, D, test, OP_JUMP_IF_FALSE, skip);
    StmtRises(code, D, test + 4, s.thenBranch, depth, g.s, residue);
    RisesEnds(code, D, test + 4, jump, 0);
    AfterJump(code, D, jump, OP_JUMP, 1 + |w.code|);
    StmtRises(code, D, jump + 4, s.elseBranch.value, depth, hs, residue);
    BranchesFall(code, D, test, jump, jump + 4 + |w.code|);
    RisesTrans(code, D, pc, test, jump + 4 + |w.code|, 1, -1);
  }

  lemma AfterJump(code: seq<byte>, D: set<int>, a: int, op: byte, skip: nat)
    requires At(code, a, Forward(op, skip)) && skip <= 0xffff && (op == OP_JUMP || op == OP_JUMP_IF_FALSE)
    requires At(code, a + 3, [OP_POP]) && Boundary(code, 0, a)
    ensures Boundary(code, 0, a + 4)
  {
    hide Rises, Delta, Boundary;
    JumpPop(code, D, a, op, skip);
    RisesEnds(code, D, a + 3, a + 4, -1);
  }

  lemma {:induction false} WhileLevel(code: seq<byte>, D: set<int>, pc: int, s: Stmt, depth: nat, st: Static,
      residue: bool)
    requires s.While? && Supported(s) && Even(s, depth, residue) && Balanced(s) &&
      Laid(code, D, pc, GenStmt(s, depth, st), depth, st, Decls(s, pc, depth, st, residue))
    ensures Rises(code, D, pc, pc + |GenStmt(s, depth, st).code|, 0)
    decreases s, 0
  {
    hide Rises, Boundary, At, GenExpr, GenStmt, GenStmts, SupportedExpr, SupportedList, EvenList, BalancedList,
         LeavesAny, NoDeclaration, Forward, Backward;
    SupportedParts(s);
    var ss := s.body.stmts;
    var g := GenExpr(s.cond, st);
    var h := GenStmts(ss, depth, g.s);
    var test := pc + |g.code|;
    WhilePlaces(code, pc, s, depth, st);
    assert Decls(s, pc, depth, st, residue) == DeclsList(ss, test + 4, depth, g.s, residue);
    DeclsListInside(ss, test + 4, depth, g.s, residue);
    GenExprStatic(s.cond, st);
    ExprRises(code, D, pc, s.cond, st);
    RisesEnds(code, D, pc, test, 1);
    AfterJump(code, D, test, OP_JUMP_IF_FALSE, 1 + |h.code| + 3);
    StmtsRise(code, D, test + 4, ss, depth, g.s, residue);
    NoRise(ss, depth, residue);
    RoundLevel(code, D, pc, test, test + 4 + |h.code|);
  }

  lemma {:induction false} ForLevel(code: seq<byte>, D: set<int>, pc: int, s: Stmt, depth: nat, st: Static,
      residue: bool)
    requires s.For? && Supported(s) && Even(s, depth, residue) && Balanced(s) &&
      Laid(code, D, pc, GenStmt(s, depth, st), depth, st, Decls(s, pc, depth, st, residue))
    ensures Rises(code, D, pc, pc + |GenStmt(s, depth, st).code|, 0)
    decreases s, 0
  {
    hide Rises, Boundary, GenExpr, GenForLoop, SupportedExpr, SupportedList, EvenList, BalancedList, EndScope, Pops,
         NoDeclaration, LeavesAny;
    SupportedParts(s);
    var g := GenExpr(s.start, st);
    var (slot, s1) := AddLocal(g.s, s.name, depth + 1);
    var h := GenForLoop(s.end, s.body, slot, depth + 1, s1);
    var from := pc + |g.code|;
    var to := from + |h.code|;
    GenExprStatic(s.start, st);
    assert Within(s1.locals, depth + 1);
    GenForLoopStatic(s.end, s.body, slot, depth + 1, s1);
    EndScopeRestores(Emitted(g.code + h.code, h.s), st.locals, depth);
    LoopLocalsGrow(s, slot, depth + 1, s1, residue);
    AtSplit(code, pc, g.code + h.code, Pops(1));
    AtSplit(code, pc, g.code, h.code);
    ExprRises(code, D, pc, s.start, st);
    RisesEnds(code, D, pc, from, 1);
    ForLoopLevel(code, D, from, s, slot, depth + 1, s1, residue);
    RisesTrans(code, D, pc, from, to, 1, 0);
    RisesEnds(code, D, pc, to, 1);
    PopsFall(code, D, to, 1);
    RisesTrans(code, D, pc, to, to + 1, 1, -1);
  }

  lemma LoopLocalsGrow(s: Stmt, slot: byte, depth: nat, st: Static, residue: bool)
    requires s.For? && Supported(s) && depth > 0 && s.body.Block? && NoDeclaration(s.body.stmts) &&
      EvenList(s.body.stmts, depth, residue)
    requires Within(st.locals, depth) && !GenForLoop(s.end, s.body, slot, depth, st).s.err
    ensures |GenForLoop(s.end, s.body, slot, depth, st).s.locals| == |st.locals|
    ensures !GenStmts(s.body.stmts, depth, GenExpr(s.end, st).s).s.err
  {
    hide GenExpr, GenStmts, SupportedExpr, SupportedList, EvenList, Forward, Backward;
    SupportedParts(s);
    var g := GenExpr(s.end, st);
    GenExprStatic(s.end, st);
    GenBodyBlock(s.body, depth, g.s);
    LeavesNothing(s.body.stmts, depth);
    NoRise(s.body.stmts, depth, residue);
    LocalsGrowList(s.body.stmts, depth, g.s, residue);
  }

  lemma {:induction false} ForLoopLevel(code: seq<byte>, D: set<int>, pc: int, s: Stmt, slot: byte, depth: nat,
      st: Static, residue: bool)
    requires s.For? && Supported(s) && depth > 0 && s.body.Block? && NoDeclaration(s.body.stmts) &&
      EvenList(s.body.stmts, depth, residue)
    requires BalancedList(s.body.stmts) && Laid(code, D, pc, GenForLoop(s.end, s.body, slot, depth, st), depth, st, {})
    ensures Rises(code, D, pc, pc + |GenForLoop(s.end, s.body, slot, depth, st).code|, 0)
    decreases s, 0, 1
  {
    hide Rises, Boundary, At, GenExpr, GenForLoop, GenStmts, SupportedExpr, SupportedList, EvenList, BalancedList,
         LoopTest, Forward, Backward, Increment, NoDeclaration, Supported;
    SupportedParts(s);
    var g := GenExpr(s.end, st);
    var h := GenStmts(s.body.stmts, depth, g.s);
    var next := Increment(slot, h.s);
    var test := pc + |LoopTest(slot, g)|;
    var mid := test + 4 + |h.code|;
    LoopPlaces(code, pc, s, slot, depth, st);
    DeclsListNone(s.body.stmts, test + 4, depth, g.s, residue);
    LoopLocalsGrow(s, slot, depth, st, residue);
    GenExprStatic(s.end, st);
    LoopTestRises(code, D, pc, s.end, slot, st);
    RisesEnds(code, D, pc, test, 1);
    AfterJump(code, D, test, OP_JUMP_IF_FALSE, 1 + |h.code| + |next.code| + 3);
    StmtsRise(code, D, test + 4, s.body.stmts, depth, g.s, residue);
    LeavesNothing(s.body.stmts, depth);
    NoRise(s.body.stmts, depth, residue);
    RisesEnds(code, D, test + 4, mid, 0);
    IncrementLevel(code, D, mid, slot, h.s);
    RisesTrans(code, D, test + 4, mid, mid + |next.code|, 0, 0);
    RoundLevel(code, D, pc, test, mid + |next.code|);
  }

  lemma LoopTestRises(code: seq<byte>, D: set<int>, pc: int, e: Expr, slot: byte, st: Static)
    requires SupportedExpr(e) && At(code, pc, LoopTest(slot, GenExpr(e, st))) && Boundary(code, 0, pc)
    requires Free(D, pc, pc + |LoopTest(slot, GenExpr(e, st))|)
    ensures Rises(code, D, pc, pc + |LoopTest(slot, GenExpr(e, st))|, 1)
  {
    hide Rises, Boundary, GenExpr, OneByte, TwoBytes, Delta, SupportedExpr;
    OpcodeWidths();
    Deltas();
    var g := GenExpr(e, st);
    AtSplit(code, pc, [OP_GET_LOCAL, slot] + g.code, [OP_LESS]);
    AtSplit(code, pc, [OP_GET_LOCAL, slot], g.code);
    RisesPair(code, D, pc, OP_GET_LOCAL, slot);
    RisesEnds(code, D, pc, pc + 2, 1);
    ExprRises(code, D, pc + 2, e, st);
    RisesTrans(code, D, pc, pc + 2, pc + 2 + |g.code|, 1, 1);
    AddByte(code, D, pc, [OP_GET_LOCAL, slot] + g.code, OP_LESS, 2);
  }

  lemma IncrementLevel(code: seq<byte>, D: set<int>, pc: int, slot: byte, st: Static)
    requires At(code, pc, Increment(slot, st).code) && Boundary(code, 0, pc)
    ensures Rises(code, D, pc, pc + |Increment(slot, st).code|, 0)
  {
    hide Rises, Boundary, OneByte, TwoBytes, WithConstant, Delta;
    OpcodeWidths();
    Deltas();
    var one := ConstantCode(OP_CONSTANT, Int(1), st);
    var a := [OP_GET_LOCAL, slot];
    AtSplit(code, pc, a + one + [OP_ADD] + [OP_SET_LOCAL, slot], [OP_POP]);
    AtSplit(code, pc, a + one + [OP_ADD], [OP_SET_LOCAL, slot]);
    AtSplit(code, pc, a + one, [OP_ADD]);
    AtSplit(code, pc, a, one);
    RisesPair(code, D, pc, OP_GET_LOCAL, slot);
    AddPair(code, D, pc, a, one[0], one[1], 1);
    AddByte(code, D, pc, a + one, OP_ADD, 2);
    AddPair(code, D, pc, a + one + [OP_ADD], OP_SET_LOCAL, slot, 1);
    AddByte(code, D, pc, a + one + [OP_ADD] + [OP_SET_LOCAL, slot], OP_POP, 1);
  }

  /** In a block the stack and the table of locals keep their distance, so a variable
      whose slot was its stack index when it was declared keeps it. */
  lemma SlotsKeepPace(code: seq<byte>, D: set<int>, pc: int, s: Stmt, depth: nat, st: Static, residue: bool)
    requires depth > 0 && Supported(s) && Even(s, depth, residue) && Balanced(s) &&
      Laid(code, D, pc, GenStmt(s, depth, st), depth, st, Decls(s, pc, depth, st, residue))
    ensures
      var g := GenStmt(s, depth, st);
      st.locals <= g.s.locals
      && Net(code, D, 0, pc + |g.code|) - |g.s.locals| == Net(code, D, 0, pc) - |st.locals|
  {
    hide GenStmt, Supported, Even, Balanced, Net, Boundary, Level, Rise;
    StmtRises(code, D, pc, s, depth, st, residue);
    LocalsGrow(s, depth, st, residue);
    GenStmtStatic(s, depth, st);
  }

  // ----- the machine -----

  /** Where the program's declarations store what they leave behind. */
  function DeclsOf(program: seq<Stmt>, residue: bool): set<int> {
    DeclsList(program, 0, 0, Static([], [], false), residue)
  }

  /** The code of a program is level throughout. */
  lemma ProgramLevel(P: Prims, program: seq<Stmt>, tolerant: bool, residue: bool)
    requires SupportedList(program) && EvenList(program, 0, residue) && BalancedList(program)
    requires !GenProgram(program).s.err && |GenProgram(program).code| < 0xffff
    ensures
      var code, D := Load(P, program, tolerant).code, DeclsOf(program, residue);
      Level(code, D, 0, |code|) && Net(code, D, 0, |code| - 1) == RiseList(program, 0, residue)
  {
    hide Boundary, GenStmts, OneByte, Delta, Level, DeclsList;
    OpcodeWidths();
    var g, D := GenProgram(program).code, DeclsOf(program, residue);
    var code := g + [OP_HALT];
    assert At(code, 0, code);
    AtSplit(code, 0, g, [OP_HALT]);
    NetZero(code, D);
    StmtsRise(code, D, 0, program, 0, Static([], [], false), residue);
    AddByte(code, D, 0, g, OP_HALT, RiseList(program, 0, residue));
  }

  lemma NetZero(code: seq<byte>, D: set<int>)
    ensures Boundary(code, 0, 0) && Net(code, D, 0, 0) == 0
  {
  }

  /** How many values declarations have left behind in `n` steps. */
  function Left(m: Vm, D: set<int>, n: nat, c: Conf): nat {
    if n == 0 || !c.Running? then 0
    else (if Stores(m.code, D, c.pc) then 1 else 0) + Left(m, D, n - 1, m.Step(c))
  }

  predicate Stores(code: seq<byte>, D: set<int>, pc: int) {
    0 <= pc < |code| && code[pc] == OP_SET_GLOBAL && pc in D
  }

  lemma {:induction false} LeftStep(m: Vm, D: set<int>, n: nat, c: Conf)
    requires n > 0 && m.Run(n - 1, c).Running?
    ensures Left(m, D, n, c) == Left(m, D, n - 1, c) + if Stores(m.code, D, m.Run(n - 1, c).pc) then 1 else 0
  {
    hide Vm.Step;
    if n > 1 {
      assert c.Running?;
      LeftStep(m, D, n - 1, m.Step(c));
    } else {
      assert Left(m, D, 0, m.Step(c)) == 0;
    }
  }

  /** A clean step changes the height of the stack as the instruction says. */
  lemma StepEffect(m: Vm, c: Conf)
    requires m.Clean(c) && !m.tolerant && m.Step(c).Running?
    ensures
      var op := m.code[c.pc];
      var (pops, pushes) := Vm.Effect(op, Operand(m.code, c.pc));
      && |m.Step(c).stack| == |c.stack| - pops + pushes <= STACK_MAX && op != OP_RETURN
  {
    hide ApplyBinary, ApplyUnary, CallNative, BinaryOf;
  }

  lemma StepPlace(m: Vm, c: Conf)
    requires c.Running? && m.Step(c).Running? && 0 <= c.pc < |m.code| && c.pc + Width(m.code[c.pc]) <= |m.code| &&
      Plain(m.code[c.pc])
    ensures
      var op, next := m.code[c.pc], m.Step(c).pc;
      if op == OP_JUMP || op == OP_JUMP_BACK then next in Targets(m.code, c.pc)
      else next == c.pc + Width(op) || (op == OP_JUMP_IF_FALSE && next in Targets(m.code, c.pc))
  {
    hide ApplyBinary, ApplyUnary, CallNative, BinaryOf;
    WidthsAgree(m.code[c.pc]);
  }

  /** A clean step from a place with its own height, above `left` values, leads to another one. */
  lemma StepKeepsHeight(m: Vm, D: set<int>, c: Conf, left: nat)
    requires Fits(m.code, 0, |m.code|, {}) && Level(m.code, D, 0, |m.code|)
    requires m.Clean(c) && !m.tolerant && Boundary(m.code, 0, c.pc) && |c.stack| == left + Net(m.code, D, 0, c.pc)
    requires m.Step(c).Running?
    ensures |m.Step(c).stack| == left + (if Stores(m.code, D, c.pc) then 1 else 0) + Net(m.code, D, 0, m.Step(c).pc)
    ensures |m.Step(c).stack| <= STACK_MAX
  {
    hide Boundary, Net, Vm.Step, Targets;
    var code, pc := m.code, c.pc;
    assert Sound(code, pc, 0, |code|, {}) && Leads(code, D, pc);
    StepEffect(m, c);
    StepPlace(m, c);
    ClimbsOne(code, D, pc);
  }

  lemma {:induction false} HeightAt(P: Prims, program: seq<Stmt>, n: nat, residue: bool)
    requires Compilable(program) && BalancedList(program) && EvenList(program, 0, residue) && NeverDeep(P, program)
    ensures
      var m, D := Load(P, program, false), DeclsOf(program, residue);
      var c := m.Run(n, Boot());
      c.Running? ==> |c.stack| == Left(m, D, n, Boot()) + Net(m.code, D, 0, c.pc) <= STACK_MAX
  {
    hide Vm.Step, Vm.Clean, GenProgram, Fits, Level, Net, Boundary, Left, Stores, DeclsOf, EvenList, BalancedList,
         AlignedList;
    var m, D := Load(P, program, false), DeclsOf(program, residue);
    var c := m.Run(n, Boot());
    if n == 0 {
      NetZero(m.code, D);
      assert Left(m, D, 0, Boot()) == 0 by { LeftNone(m, D); }
    } else {
      HeightAt(P, program, n - 1, residue);
      m.RunAdd(n - 1, 1, Boot());
      CompiledFits(P, program, false);
      ProgramLevel(P, program, false, residue);
      var b := m.Run(n - 1, Boot());
      if c.Running? {
        OneStep(m, b);
        CompiledProgramIsClean(P, program, n - 1, false);
        ExecutedIsListed(P, program, false, n - 1);
        LeftStep(m, D, n, Boot());
        StepKeepsHeight(m, D, b, Left(m, D, n - 1, Boot()));
      }
    }
  }

  lemma LeftNone(m: Vm, D: set<int>)
    ensures Left(m, D, 0, Boot()) == 0
  {
  }

  /** Static stack discipline: whenever the machine is at some place in the code, its stack
      is, above the values that declarations have left behind, as high as the code up to
      that place says, however it came there. */
  lemma OneHeight(P: Prims, program: seq<Stmt>, n: nat)
    requires Compilable(program) && BalancedList(program) && NeverDeep(P, program)
    ensures
      var m, D := Load(P, program, false), DeclsOf(program, true);
      var c := m.Run(n, Boot());
      c.Running? ==> |c.stack| == Left(m, D, n, Boot()) + Net(m.code, D, 0, c.pc) <= STACK_MAX
  {
    hide GenProgram, Net, EvenList, BalancedList, AlignedList, Left, DeclsOf;
    AlignedListIsEven(program, 0, false, false);
    HeightAt(P, program, n, true);
  }

  /** If no loop leaves values behind the whole height is the place's own. */
  lemma OneHeightInAll(P: Prims, program: seq<Stmt>, n: nat)
    requires Compilable(program) && BalancedList(program) && NeverDeep(P, program) && SteadyList(program, 0)
    ensures
      var m := Load(P, program, false);
      var c := m.Run(n, Boot());
      c.Running? ==> |c.stack| == Net(m.code, {}, 0, c.pc) <= STACK_MAX
  {
    hide GenProgram, Net, EvenList, BalancedList, AlignedList, SteadyList;
    SteadyListIsEven(program, 0);
    HeightAt(P, program, n, false);
    assert DeclsOf(program, false) == {};
    LeftNothing(Load(P, program, false), n, Boot());
  }

  lemma {:induction false} LeftNothing(m: Vm, n: nat, c: Conf)
    ensures Left(m, {}, n, c) == 0
  {
    hide Vm.Step;
    if n > 0 && c.Running? {
      LeftNothing(m, n - 1, m.Step(c));
    }
  }

  /** The same from the program text alone. */
  lemma OneHeightByText(P: Prims, program: seq<Stmt>, n: nat)
    requires Compilable(program) && BalancedList(program) && SteadyList(program, 0) &&
      HeightList(program, 0, 0) <= STACK_MAX
    ensures
      var m := Load(P, program, false);
      var c := m.Run(n, Boot());
      c.Running? ==> |c.stack| == Net(m.code, {}, 0, c.pc) <= STACK_MAX
  {
    hide GenProgram, Net, SteadyList, HeightList, BalancedList, AlignedList;
    ShallowProgram(P, program);
    OneHeightInAll(P, program, n);
  }
}
