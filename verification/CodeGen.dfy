/** What compile_node emits (src/compiler.c:95-355), as a function of the syntax tree.

    Jump operands are written as the length of the code they skip; the compiler
    proper (module Compiler) emits placeholders and patches them. */
module CodeGen {
  import opened Wrappers
  import opened Values
  import opened Bytecode
  import opened Ast
  import opened Semantics

  const MAX_LOCALS: nat := 256
  const MAX_NAME: nat := 127

  datatype Local = Local(name: string, depth: int)

  /** The compiler's state besides the code: constants, block variables, error flag. */
  datatype Static = Static(constants: seq<Value>, locals: seq<Local>, err: bool)

  datatype Emitted = Emitted(code: seq<byte>, s: Static)

  function NamesOf(locals: seq<Local>): (names: seq<string>)
    ensures |names| == |locals|
  {
    seq(|locals|, i requires 0 <= i < |locals| => locals[i].name)
  }

  /** `make_constant`: the constant is stored even when its index does not fit a byte. */
  function AddConstant(s: Static, v: Value): (byte, Static) {
    var k := |s.constants|;
    if k > 255 then (0, s.(constants := s.constants + [v], err := true))
    else (k, s.(constants := s.constants + [v]))
  }

  /** `strncpy` into a 128-byte field. */
  function Clip(name: string): string {
    if |name| > MAX_NAME then name[..MAX_NAME] else name
  }

  /** `add_local`; its slot is (uint8_t)-1 when the table is full. */
  function AddLocal(s: Static, name: string, depth: int): (byte, Static) {
    if |s.locals| >= MAX_LOCALS then (255, s.(err := true))
    else (|s.locals|, s.(locals := s.locals + [Local(Clip(name), depth)]))
  }

  /** `resolve_local` */
  function Resolve(s: Static, name: string): int {
    FindLast(NamesOf(s.locals), name)
  }

  /** `end_scope` pops this many block variables. */
  function CountAbove(locals: seq<Local>, depth: int): (n: nat)
    ensures n <= |locals|
  {
    if locals == [] || locals[|locals| - 1].depth <= depth then 0
    else 1 + CountAbove(locals[..|locals| - 1], depth)
  }

  function Pops(n: nat): (code: seq<byte>)
    ensures |code| == n
  {
    seq(n, _ => OP_POP)
  }

  function EndScope(g: Emitted, depth: int): Emitted {
    var n := CountAbove(g.s.locals, depth);
    Emitted(g.code + Pops(n), g.s.(locals := g.s.locals[..|g.s.locals| - n]))
  }

  /** A forward jump over `skip` bytes; one that is too far keeps its placeholder. */
  function Forward(op: byte, skip: nat): (code: seq<byte>)
    ensures |code| == 3
  {
    [op] + if skip > 0xffff then [0xff, 0xff] else [Hi(skip), Lo(skip)]
  }

  /** A backward jump over `skip` bytes, its own three included; it is never range-checked. */
  function Backward(skip: nat): (code: seq<byte>)
    ensures |code| == 3
  {
    [OP_JUMP_BACK, Hi(skip), Lo(skip)]
  }

  function WithConstant(op: byte, v: Value, s: Static): Emitted {
    var (k, s') := AddConstant(s, v);
    Emitted([op, k], s')
  }

  /** Access to a variable: its slot if it is a block variable, its name otherwise. */
  function Variable(local: byte, global: byte, name: string, s: Static): Emitted {
    var slot := Resolve(s, name);
    if slot >= 0 then Emitted([local, slot % 256], s)
    else WithConstant(global, Str(name), s)
  }

  function GenExpr(e: Expr, s: Static): Emitted
    decreases e, 1
  {
    match e
    case IntLit(n) => WithConstant(OP_CONSTANT, Int(n), s)
    case FloatLit(f) => WithConstant(OP_CONSTANT, Flt(f), s)
    case StringLit(t) => WithConstant(OP_CONSTANT, Str(t), s)
    case BoolLit(b) => Emitted([if b then OP_TRUE else OP_FALSE], s)
    case NilLit => Emitted([OP_NIL], s)
    case Ident(x) => Variable(OP_GET_LOCAL, OP_GET_GLOBAL, x, s)
    case Binary(op, l, r) =>
      var g := GenExpr(l, s);
      var h := GenExpr(r, g.s);
      Emitted(g.code + h.code + [BinaryOpcode(op)], h.s)
    case Unary(op, x) =>
      var g := GenExpr(x, s);
      Emitted(g.code + [UnaryOpcode(op)], g.s)
    case Call(f, args) =>
      var g := GenExpr(f, s);
      var h := GenExprs(args, g.s);
      Emitted(g.code + h.code + [OP_CALL, |args| % 256], h.s)
    case Dot(x, field) =>
      var g := GenExpr(x, s);
      var h := WithConstant(OP_GET_FIELD, Str(field), g.s);
      Emitted(g.code + h.code, h.s)
    case Index(x, i) =>
      var g := GenExpr(x, s);
      var h := GenExpr(i, g.s);
      Emitted(g.code + h.code + [OP_GET_INDEX], h.s)
    case ArrayLit(es) =>
      var g := GenExprs(es, s);
      Emitted(g.code + [OP_ARRAY, |es| % 256], g.s)
    case Assign(t, x) =>
      var g := GenExpr(x, s);
      var h := GenTarget(t, g.s);
      Emitted(g.code + h.code, h.s)
  }

  /** The store of an assignment; a target that is no place emits nothing. */
  function GenTarget(t: Expr, s: Static): Emitted
    decreases t, 2
  {
    match t
    case Ident(name) => Variable(OP_SET_LOCAL, OP_SET_GLOBAL, name, s)
    case Dot(x, field) =>
      var g := GenExpr(x, s);
      var h := WithConstant(OP_SET_FIELD, Str(field), g.s);
      Emitted(g.code + h.code, h.s)
    case Index(x, i) =>
      var g := GenExpr(x, s);
      var h := GenExpr(i, g.s);
      Emitted(g.code + h.code + [OP_SET_INDEX], h.s)
    case _ => Emitted([], s)
  }

  function GenExprs(es: seq<Expr>, s: Static): Emitted
    decreases es, 0
  {
    if es == [] then Emitted([], s)
    else
      var g := GenExpr(es[0], s);
      var h := GenExprs(es[1..], g.s);
      Emitted(g.code + h.code, h.s)
  }

  function GenOption(e: Option<Expr>, s: Static): Emitted {
    if e.Some? then GenExpr(e.value, s) else Emitted([OP_NIL], s)
  }

  function GenStmt(s: Stmt, depth: nat, st: Static): Emitted
    decreases s, 1
  {
    match s
    case Let(name, init) =>
      var g := GenOption(init, st);
      if depth > 0 then
        Emitted(g.code, AddLocal(g.s, name, depth).1)
      else
        var h := WithConstant(OP_SET_GLOBAL, Str(name), g.s);
        Emitted(g.code + h.code, h.s)
    case If(c, t, e) =>
      var g := GenExpr(c, st);
      var h := GenStmt(t, depth, g.s);
      if e.Some? then
        var skip := 1 + |h.code| + 3;
        var w := GenStmt(e.value, depth, TooFar(h.s, skip > 0xffff));
        var skipElse := 1 + |w.code|;
        Emitted(g.code + Forward(OP_JUMP_IF_FALSE, skip) + [OP_POP] + h.code
                + Forward(OP_JUMP, skipElse) + [OP_POP] + w.code,
                TooFar(w.s, skipElse > 0xffff))
      else
        var skip := 1 + |h.code|;
        Emitted(g.code + Forward(OP_JUMP_IF_FALSE, skip) + [OP_POP] + h.code + [OP_POP],
                TooFar(h.s, skip > 0xffff))
    case While(c, b) =>
      var g := GenExpr(c, st);
      var h := GenBody(b, depth, g.s);
      var skip := 1 + |h.code| + 3;
      Emitted(g.code + Forward(OP_JUMP_IF_FALSE, skip) + [OP_POP] + h.code
              + Backward(|g.code| + 4 + |h.code| + 3) + [OP_POP],
              TooFar(h.s, skip > 0xffff))
    case For(name, a, z, b) =>
      var g := GenExpr(a, st);
      var (slot, s1) := AddLocal(g.s, name, depth + 1);
      var h := GenForLoop(z, b, slot, depth + 1, s1);
      EndScope(Emitted(g.code + h.code, h.s), depth)
    case Block(ss) =>
      EndScope(GenStmts(ss, depth + 1, st), depth)
    case Function(name, _, _, _) =>
      if depth == 0 then
        var h := WithConstant(OP_SET_GLOBAL, Str(name), st);
        Emitted([OP_NIL] + h.code, h.s)
      else Emitted([OP_NIL], st)
    case Return(r) =>
      var g := GenOption(r, st);
      Emitted(g.code + [OP_RETURN], g.s)
    case Print(e) =>
      var g := GenExpr(e, st);
      Emitted(g.code + [OP_PRINT], g.s)
    case ExprStmt(e) =>
      var g := GenExpr(e, st);
      Emitted(g.code + [OP_POP], g.s)
    case _ => Emitted([], st)  // not implemented by the compiler
  }

  /** The loop of `for` over the block variable in `slot`. */
  function GenForLoop(end: Expr, b: Stmt, slot: byte, depth: nat, st: Static): Emitted
    decreases b, 5
  {
    var g := GenExpr(end, st);
    var test := [OP_GET_LOCAL, slot] + g.code + [OP_LESS];
    var h := GenRound(b, slot, depth, |test|, g.s);
    Emitted(test + h.code, h.s)
  }

  /** The loop behind its test, which takes `test` bytes. */
  function GenRound(b: Stmt, slot: byte, depth: nat, test: nat, st: Static): Emitted
    decreases b, 4
  {
    var h := GenBody(b, depth, st);
    var next := Increment(slot, h.s);
    var skip := 1 + |h.code| + |next.code| + 3;
    Emitted(Forward(OP_JUMP_IF_FALSE, skip) + [OP_POP] + h.code + next.code
            + Backward(test + 4 + |h.code| + |next.code| + 3) + [OP_POP],
            TooFar(next.s, skip > 0xffff))
  }

  /** The loop variable plus one, stored back. */
  function Increment(slot: byte, st: Static): Emitted {
    var one := WithConstant(OP_CONSTANT, Int(1), st);
    Emitted([OP_GET_LOCAL, slot] + one.code + [OP_ADD] + [OP_SET_LOCAL, slot] + [OP_POP], one.s)
  }

  function TooFar(s: Static, far: bool): Static {
    s.(err := s.err || far)
  }

  /** `compile_block`: a loop body opens no scope of its own. */
  function GenBody(b: Stmt, depth: nat, st: Static): Emitted
    decreases b, 2
  {
    if b.Block? then GenStmts(b.stmts, depth, st) else GenStmt(b, depth, st)
  }

  function GenStmts(ss: seq<Stmt>, depth: nat, st: Static): Emitted
    decreases ss, 0
  {
    if ss == [] then Emitted([], st)
    else
      var g := GenStmt(ss[0], depth, st);
      var h := GenStmts(ss[1..], depth, g.s);
      Emitted(g.code + h.code, h.s)
  }

  function GenProgram(program: seq<Stmt>): Emitted {
    GenStmts(program, 0, Static([], [], false))
  }

  // ----- the layout of compound statements -----

  lemma GenIfThen(s: Stmt, depth: nat, st: Static)
    requires s.If? && s.elseBranch.None?
    ensures
      var g := GenExpr(s.cond, st);
      var h := GenStmt(s.thenBranch, depth, g.s);
      var skip := 1 + |h.code|;
      GenStmt(s, depth, st) ==
      Emitted(g.code + Forward(OP_JUMP_IF_FALSE, skip) + [OP_POP] + h.code + [OP_POP], TooFar(h.s, skip > 0xffff))
  {
    hide GenExpr, Forward;
  }

  lemma GenIfElse(s: Stmt, depth: nat, st: Static)
    requires s.If? && s.elseBranch.Some?
    ensures
      var g := GenExpr(s.cond, st);
      var h := GenStmt(s.thenBranch, depth, g.s);
      var skip := 1 + |h.code| + 3;
      var w := GenStmt(s.elseBranch.value, depth, TooFar(h.s, skip > 0xffff));
      var skipElse := 1 + |w.code|;
      GenStmt(s, depth, st) ==
      Emitted(g.code + Forward(OP_JUMP_IF_FALSE, skip) + [OP_POP] + h.code + Forward(OP_JUMP, skipElse) + [OP_POP] +
        w.code,
              TooFar(w.s, skipElse > 0xffff))
  {
    hide GenExpr, Forward;
  }

  lemma GenWhile(s: Stmt, depth: nat, st: Static)
    requires s.While?
    ensures
      var g := GenExpr(s.cond, st);
      var h := GenBody(s.body, depth, g.s);
      var skip := 1 + |h.code| + 3;
      GenStmt(s, depth, st) ==
      Emitted(g.code + Forward(OP_JUMP_IF_FALSE, skip) + [OP_POP] + h.code + Backward(|g.code| + 4 + |h.code| + 3) +
        [OP_POP],
              TooFar(h.s, skip > 0xffff))
  {
    hide GenExpr, GenBody, Forward, Backward;
  }

  lemma SplitIfThen(code: seq<byte>, pc: int, g: seq<byte>, skip: nat, h: seq<byte>)
    requires At(code, pc, g + Forward(OP_JUMP_IF_FALSE, skip) + [OP_POP] + h + [OP_POP])
    ensures At(code, pc, g) && At(code, pc + |g|, Forward(OP_JUMP_IF_FALSE, skip)) && At(code, pc + |g| + 3, [OP_POP])
    ensures At(code, pc + |g| + 4, h) && At(code, pc + |g| + 4 + |h|, [OP_POP])
  {
    hide Forward;
    var j := Forward(OP_JUMP_IF_FALSE, skip);
    AtSplit(code, pc, g + j + [OP_POP] + h, [OP_POP]);
    AtSplit(code, pc, g + j + [OP_POP], h);
    AtSplit(code, pc, g + j, [OP_POP]);
    AtSplit(code, pc, g, j);
  }

  lemma SplitIfElse(code: seq<byte>, pc: int, g: seq<byte>, skip: nat, h: seq<byte>, skipElse: nat, w: seq<byte>)
    requires At(code, pc,
      g + Forward(OP_JUMP_IF_FALSE, skip) + [OP_POP] + h + Forward(OP_JUMP, skipElse) + [OP_POP] + w)
    ensures At(code, pc, g) && At(code, pc + |g|, Forward(OP_JUMP_IF_FALSE, skip)) && At(code, pc + |g| + 3, [OP_POP])
    ensures At(code, pc + |g| + 4, h) && At(code, pc + |g| + 4 + |h|, Forward(OP_JUMP, skipElse))
    ensures At(code, pc + |g| + 4 + |h| + 3, [OP_POP]) && At(code, pc + |g| + 4 + |h| + 4, w)
  {
    hide Forward;
    var j, k := Forward(OP_JUMP_IF_FALSE, skip), Forward(OP_JUMP, skipElse);
    AtSplit(code, pc, g + j + [OP_POP] + h + k + [OP_POP], w);
    AtSplit(code, pc, g + j + [OP_POP] + h + k, [OP_POP]);
    AtSplit(code, pc, g + j + [OP_POP] + h, k);
    AtSplit(code, pc, g + j + [OP_POP], h);
    AtSplit(code, pc, g + j, [OP_POP]);
    AtSplit(code, pc, g, j);
  }

  lemma SplitWhile(code: seq<byte>, pc: int, g: seq<byte>, skip: nat, h: seq<byte>, back: nat)
    requires At(code, pc, g + Forward(OP_JUMP_IF_FALSE, skip) + [OP_POP] + h + Backward(back) + [OP_POP])
    ensures At(code, pc, g) && At(code, pc + |g|, Forward(OP_JUMP_IF_FALSE, skip)) && At(code, pc + |g| + 3, [OP_POP])
    ensures At(code, pc + |g| + 4, h) && At(code, pc + |g| + 4 + |h|, Backward(back))
    ensures At(code, pc + |g| + 4 + |h| + 3, [OP_POP])
  {
    hide Forward, Backward;
    var j, b := Forward(OP_JUMP_IF_FALSE, skip), Backward(back);
    AtSplit(code, pc, g + j + [OP_POP] + h + b, [OP_POP]);
    AtSplit(code, pc, g + j + [OP_POP] + h, b);
    AtSplit(code, pc, g + j + [OP_POP], h);
    AtSplit(code, pc, g + j, [OP_POP]);
    AtSplit(code, pc, g, j);
  }

  /** The rest of a loop behind its test. */
  lemma SplitRound(code: seq<byte>, pc: int, skip: nat, h: seq<byte>, next: seq<byte>, back: nat)
    requires At(code, pc, Forward(OP_JUMP_IF_FALSE, skip) + [OP_POP] + h + next + Backward(back) + [OP_POP])
    ensures At(code, pc, Forward(OP_JUMP_IF_FALSE, skip)) && At(code, pc + 3, [OP_POP]) && At(code, pc + 4, h)
    ensures At(code, pc + 4 + |h|, next) && At(code, pc + 4 + |h| + |next|, Backward(back))
    ensures At(code, pc + 4 + |h| + |next| + 3, [OP_POP])
  {
    hide Forward, Backward;
    var j, b := Forward(OP_JUMP_IF_FALSE, skip), Backward(back);
    AtSplit(code, pc, j + [OP_POP] + h + next + b, [OP_POP]);
    AtSplit(code, pc, j + [OP_POP] + h + next, b);
    AtSplit(code, pc, j + [OP_POP] + h, next);
    AtSplit(code, pc, j + [OP_POP], h);
    AtSplit(code, pc, j, [OP_POP]);
  }

  /** A loop body that is a block is compiled as its list of statements. */
  lemma GenBodyBlock(b: Stmt, depth: nat, st: Static)
    requires b.Block?
    ensures GenBody(b, depth, st) == GenStmts(b.stmts, depth, st)
  {
    hide GenStmts;
  }

  /** Where the pieces of an `if` with `else` stand. */
  lemma IfPlaces(code: seq<byte>, pc: int, s: Stmt, depth: nat, st: Static)
    requires s.If? && s.elseBranch.Some? && At(code, pc, GenStmt(s, depth, st).code) && |code| <= 0xffff
    ensures
      var g := GenExpr(s.cond, st);
      var h := GenStmt(s.thenBranch, depth, g.s);
      var w := GenStmt(s.elseBranch.value, depth, TooFar(h.s, 1 + |h.code| + 3 > 0xffff));
      var jump := pc + |g.code| + 4 + |h.code|;
      && At(code, pc, g.code) && At(code, pc + |g.code|, Forward(OP_JUMP_IF_FALSE, 1 + |h.code| + 3))
      && At(code, pc + |g.code| + 3, [OP_POP]) && At(code, pc + |g.code| + 4, h.code)
      && At(code, jump, Forward(OP_JUMP, 1 + |w.code|)) && At(code, jump + 3, [OP_POP]) && At(code, jump + 4, w.code)
      && pc + |GenStmt(s, depth, st).code| == jump + 4 + |w.code| <= |code| && 0 <= pc
  {
    hide GenExpr, GenStmt, Forward;
    GenIfElse(s, depth, st);
    var g := GenExpr(s.cond, st);
    var h := GenStmt(s.thenBranch, depth, g.s);
    var skip := 1 + |h.code| + 3;
    var w := GenStmt(s.elseBranch.value, depth, TooFar(h.s, skip > 0xffff));
    SplitIfElse(code, pc, g.code, skip, h.code, 1 + |w.code|, w.code);
  }

  /** Where the pieces of a `while` stand. */
  lemma WhilePlaces(code: seq<byte>, pc: int, s: Stmt, depth: nat, st: Static)
    requires s.While? && s.body.Block? && At(code, pc, GenStmt(s, depth, st).code)
    ensures
      var g := GenExpr(s.cond, st);
      var h := GenStmts(s.body.stmts, depth, g.s);
      var test := pc + |g.code|;
      var jump := test + 4 + |h.code|;
      && At(code, pc, g.code) && At(code, test, Forward(OP_JUMP_IF_FALSE, jump - test)) && At(code, test + 3, [OP_POP])
      && At(code, test + 4, h.code) && At(code, jump, Backward(jump + 3 - pc)) && At(code, jump + 3, [OP_POP])
      && pc + |GenStmt(s, depth, st).code| == jump + 4 <= |code| && 0 <= pc
      && (!GenStmt(s, depth, st).s.err ==> !h.s.err)
  {
    hide GenExpr, GenStmt, GenBody, GenStmts, Forward, Backward;
    GenWhile(s, depth, st);
    var g := GenExpr(s.cond, st);
    var h := GenBody(s.body, depth, g.s);
    GenBodyBlock(s.body, depth, g.s);
    SplitWhile(code, pc, g.code, 1 + |h.code| + 3, h.code, |g.code| + 4 + |h.code| + 3);
  }

  /** Where the pieces of an `if` without `else` stand. */
  lemma IfThenPlaces(code: seq<byte>, pc: int, s: Stmt, depth: nat, st: Static)
    requires s.If? && s.elseBranch.None? && At(code, pc, GenStmt(s, depth, st).code)
    ensures
      var g := GenExpr(s.cond, st);
      var h := GenStmt(s.thenBranch, depth, g.s);
      var test := pc + |g.code|;
      && At(code, pc, g.code) && At(code, test, Forward(OP_JUMP_IF_FALSE, 1 + |h.code|)) && At(code, test + 3, [OP_POP])
      && At(code, test + 4, h.code) && At(code, test + 4 + |h.code|, [OP_POP])
      && pc + |GenStmt(s, depth, st).code| == test + 4 + |h.code| + 1 <= |code| && 0 <= pc
  {
    hide GenExpr, GenStmt, Forward;
    GenIfThen(s, depth, st);
    var g := GenExpr(s.cond, st);
    var h := GenStmt(s.thenBranch, depth, g.s);
    SplitIfThen(code, pc, g.code, 1 + |h.code|, h.code);
  }
}
