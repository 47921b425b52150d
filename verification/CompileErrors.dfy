/** Which programs the compiler refuses. */
module CompileErrors {
  import opened Bytecode
  import opened Ast
  import opened CodeGen
  import opened StmtCorrect

  // ----- how many block variables there are -----

  /** How many there are behind `s`, when there are `n` in front of it. */
  function After(s: Stmt, depth: nat, n: nat): nat
    decreases s, 1
  {
    match s
    case Let(_, _) => if depth > 0 then n + 1 else n
    case If(_, t, e) =>
      var k := After(t, depth, n);
      if e.Some? then After(e.value, depth, k) else k
    case While(_, b) => if b.Block? then AfterAll(b.stmts, depth, n) else After(b, depth, n)
    case _ => n
  }

  function AfterAll(ss: seq<Stmt>, depth: nat, n: nat): nat
    decreases ss, 0
  {
    if ss == [] then n else AfterAll(ss[1..], depth, After(ss[0], depth, n))
  }

  /** How many there are at most at a time. */
  function Peak(s: Stmt, depth: nat, n: nat): nat
    decreases s, 1
  {
    match s
    case Let(_, _) => if depth > 0 then n + 1 else n
    case If(_, t, e) =>
      var k := Peak(t, depth, n);
      if e.Some? then Larger(k, Peak(e.value, depth, After(t, depth, n))) else k
    case While(_, b) => if b.Block? then PeakAll(b.stmts, depth, n) else Peak(b, depth, n)
    case For(_, _, _, b) =>
      Larger(n + 1, if b.Block? then PeakAll(b.stmts, depth + 1, n + 1) else Peak(b, depth + 1, n + 1))
    case Block(ss) => PeakAll(ss, depth + 1, n)
    case _ => n
  }

  function PeakAll(ss: seq<Stmt>, depth: nat, n: nat): nat
    decreases ss, 0
  {
    if ss == [] then n else Larger(Peak(ss[0], depth, n), PeakAll(ss[1..], depth, After(ss[0], depth, n)))
  }

  function Larger(a: nat, b: nat): nat {
    if a < b then b else a
  }

  // ----- errors -----

  /** A table that is too full was reported. */
  predicate Honest(s: Static) {
    (|s.constants| > 256 ==> s.err) && |s.locals| <= 256
  }

  /** From `s` to `s'`: an error is there if and only if it was, or the constants are too many. */
  predicate OnlyConstants(s: Static, s': Static) {
    Honest(s') && (s'.err <==> s.err || |s'.constants| > 256) && |s.constants| <= |s'.constants|
  }

  lemma {:induction false} ExprErrors(e: Expr, s: Static)
    requires Honest(s)
    ensures OnlyConstants(s, GenExpr(e, s).s) && GenExpr(e, s).s.locals == s.locals
    decreases e, 1
  {
    match e
    case Binary(_, l, r) =>
      ExprErrors(l, s);
      ExprErrors(r, GenExpr(l, s).s);
    case Unary(_, x) => ExprErrors(x, s);
    case Call(f, args) =>
      ExprErrors(f, s);
      ExprsErrors(args, GenExpr(f, s).s);
    case Dot(x, _) => ExprErrors(x, s);
    case Index(x, i) =>
      ExprErrors(x, s);
      ExprErrors(i, GenExpr(x, s).s);
    case ArrayLit(es) => ExprsErrors(es, s);
    case Assign(t, x) =>
      var g := GenExpr(x, s);
      ExprErrors(x, s);
      if t.Dot? {
        ExprErrors(t.base, g.s);
      } else if t.Index? {
        ExprErrors(t.base, g.s);
        ExprErrors(t.index, GenExpr(t.base, g.s).s);
      }
    case _ =>
  }

  lemma {:induction false} ExprsErrors(es: seq<Expr>, s: Static)
    requires Honest(s)
    ensures OnlyConstants(s, GenExprs(es, s).s) && GenExprs(es, s).s.locals == s.locals
    decreases es, 0
  {
    if es != [] {
      ExprErrors(es[0], s);
      ExprsErrors(es[1..], GenExpr(es[0], s).s);
    }
  }

  /** `s'` behind `code` made from `s`: what is reported, with at most `peak` block variables,
      when all jumps fit, and when not. */
  predicate Reported(s: Static, code: seq<byte>, s': Static, peak: nat) {
    && Honest(s') && |s.constants| <= |s'.constants|
    && (s.err || |s'.constants| > 256 || peak > 256 ==> s'.err)
    && (|code| <= 0xffff && s'.err ==> s.err || |s'.constants| > 256 || peak > 256)
  }

  /** And there are `after` block variables in the end. */
  predicate Reports(s: Static, g: Emitted, peak: nat, after: nat) {
    Reported(s, g.code, g.s, peak) && (!g.s.err ==> |g.s.locals| == after)
  }

  /** `n` block variables are in scope, if nothing went wrong. */
  predicate Counts(s: Static, depth: int, n: nat) {
    Honest(s) && Within(s.locals, depth) && (s.err || |s.locals| == n)
  }

  lemma {:induction false} StmtErrors(s: Stmt, depth: nat, n: nat, st: Static)
    requires Counts(st, depth, n)
    ensures Reports(st, GenStmt(s, depth, st), Peak(s, depth, n), After(s, depth, n))
    decreases s, 1
  {
    hide GenExpr, GenForLoop, GenBody, Forward, Backward;
    match s
    case If(_, _, _) => IfErrors(s, depth, n, st);
    case While(c, b) =>
      GenWhile(s, depth, st);
      ExprErrors(c, st);
      BodyErrors(b, depth, n, GenExpr(c, st).s);
    case For(_, _, _, _) => ForErrors(s, depth, n, st);
    case Block(ss) =>
      GenStmtsStatic(ss, depth + 1, st);
      EndScopeRestores(GenStmts(ss, depth + 1, st), st.locals, depth);
      StmtsErrors(ss, depth + 1, n, st);
    case _ => PlainErrors(s, depth, n, st);
  }

  lemma PlainErrors(s: Stmt, depth: nat, n: nat, st: Static)
    requires Counts(st, depth, n) && !s.If? && !s.While? && !s.For? && !s.Block?
    ensures Reports(st, GenStmt(s, depth, st), Peak(s, depth, n), After(s, depth, n))
  {
    hide GenExpr;
    match s
    case Let(_, init) => if init.Some? { ExprErrors(init.value, st); }
    case Return(r) => if r.Some? { ExprErrors(r.value, st); }
    case Print(e) => ExprErrors(e, st);
    case ExprStmt(e) => ExprErrors(e, st);
    case _ =>
  }

  lemma {:induction false} IfErrors(s: Stmt, depth: nat, n: nat, st: Static)
    requires s.If? && Counts(st, depth, n)
    ensures Reports(st, GenStmt(s, depth, st), Peak(s, depth, n), After(s, depth, n))
    decreases s, 0
  {
    hide GenExpr, GenStmt, Forward;
    var g := GenExpr(s.cond, st);
    ExprErrors(s.cond, st);
    var h := GenStmt(s.thenBranch, depth, g.s);
    if s.elseBranch.None? {
      GenIfThen(s, depth, st);
      StmtErrors(s.thenBranch, depth, n, g.s);
    } else {
      GenIfElse(s, depth, st);
      StmtErrors(s.thenBranch, depth, n, g.s);
      GenStmtStatic(s.thenBranch, depth, g.s);
      var k := After(s.thenBranch, depth, n);
      assert Within(h.s.locals, depth);
      StmtErrors(s.elseBranch.value, depth, k, TooFar(h.s, 1 + |h.code| + 3 > 0xffff));
    }
  }

  lemma {:induction false} ForErrors(s: Stmt, depth: nat, n: nat, st: Static)
    requires s.For? && Counts(st, depth, n)
    ensures Reports(st, GenStmt(s, depth, st), Peak(s, depth, n), After(s, depth, n))
    decreases s, 0
  {
    hide GenExpr, GenForLoop;
    GenForStatic(s, depth, st);
    var g := GenExpr(s.start, st);
    ExprErrors(s.start, st);
    var (slot, s1) := AddLocal(g.s, s.name, depth + 1);
    ForLoopErrors(s.end, s.body, slot, depth + 1, n + 1, s1);
  }

  lemma {:induction false} ForLoopErrors(end: Expr, b: Stmt, slot: byte, depth: nat, n: nat, st: Static)
    requires Counts(st, depth, n)
    ensures
      var g := GenForLoop(end, b, slot, depth, st);
      Reported(st, g.code, g.s, if b.Block? then PeakAll(b.stmts, depth, n) else Peak(b, depth, n))
    decreases b, 3
  {
    hide GenExpr, GenBody, Forward, Backward;
    ExprErrors(end, st);
    BodyErrors(b, depth, n, GenExpr(end, st).s);
  }

  lemma {:induction false} BodyErrors(b: Stmt, depth: nat, n: nat, st: Static)
    requires Counts(st, depth, n)
    ensures
      Reports(st, GenBody(b, depth, st), if b.Block? then PeakAll(b.stmts, depth, n) else Peak(b, depth, n),
              if b.Block? then AfterAll(b.stmts, depth, n) else After(b, depth, n))
    decreases b, 2
  {
    if b.Block? {
      StmtsErrors(b.stmts, depth, n, st);
    } else {
      StmtErrors(b, depth, n, st);
    }
  }

  lemma {:induction false} StmtsErrors(ss: seq<Stmt>, depth: nat, n: nat, st: Static)
    requires Counts(st, depth, n)
    ensures Reports(st, GenStmts(ss, depth, st), PeakAll(ss, depth, n), AfterAll(ss, depth, n))
    decreases ss, 0
  {
    hide GenStmt;
    if ss != [] {
      var g := GenStmt(ss[0], depth, st);
      StmtErrors(ss[0], depth, n, st);
      GenStmtStatic(ss[0], depth, st);
      assert Within(g.s.locals, depth);
      StmtsErrors(ss[1..], depth, After(ss[0], depth, n), g.s);
    }
  }

  /** More than 256 constants, or somewhere more than 256 block variables at a time, are
      always refused; when the code fits 16 bits, nothing else is. */
  lemma RefusedExactly(program: seq<Stmt>)
    ensures
      var g := GenProgram(program);
      var tooMany := |g.s.constants| > 256 || PeakAll(program, 0, 0) > 256;
      (tooMany ==> g.s.err) && (|g.code| <= 0xffff && g.s.err ==> tooMany)
  {
    hide GenStmts;
    StmtsErrors(program, 0, 0, Static([], [], false));
  }
}
