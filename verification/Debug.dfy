/** The disassembler's walk over a chunk (src/debug.c:65-136), and why it meets every
    instruction the machine executes. */
module Debug {
  import opened Wrappers
  import opened Values
  import opened Bytecode
  import opened Ast
  import opened Semantics
  import opened CodeGen
  import opened Machine
  import opened StmtCorrect
  import opened CompilerCorrect

  /** The number of bytes `sky_disassemble_instruction` moves on by. */
  function Width(op: byte): (w: nat)
    ensures w >= 1
  {
    if op == OP_CONSTANT || OP_GET_LOCAL <= op <= OP_SET_FIELD || op == OP_CALL
       || op == OP_ARRAY || op == OP_MAP || op == OP_INVOKE then 2
    else if op == OP_CONSTANT_LONG then 4
    else if OP_JUMP <= op <= OP_JUMP_BACK then 3
    else 1
  }

  /** The machine and the disassembler disagree on exactly these four instructions. */
  lemma WidthsAgree(op: byte)
    ensures Width(op) == 1 + OperandBytes(op) <==> op !in {OP_GET_FIELD, OP_SET_FIELD, OP_MAP, OP_INVOKE}
  {
  }

  predicate Plain(op: byte) {
    op !in {OP_GET_FIELD, OP_SET_FIELD, OP_MAP, OP_INVOKE}
  }

  /** The offsets at which the walk from `offset` prints an instruction. */
  function Walk(code: seq<byte>, offset: nat): seq<nat>
    decreases |code| - offset
  {
    if offset >= |code| then [] else [offset] + Walk(code, offset + Width(code[offset]))
  }

  /** `sky_disassemble_chunk`, keeping the offsets instead of printing. */
  method DisassembleChunk(code: seq<byte>) returns (starts: seq<nat>)
    ensures starts == Walk(code, 0)
  {
    var offset := 0;
    starts := [];
    while offset < |code|
      invariant starts + Walk(code, offset) == Walk(code, 0)
      decreases |code| - offset
    {
      starts := starts + [offset];
      offset := offset + Width(code[offset]);
    }
  }

  /** The walk from `a` comes to `b`. */
  predicate Boundary(code: seq<byte>, a: int, b: int)
    decreases b - a
  {
    a == b || (0 <= a < b && a < |code| && Boundary(code, a + Width(code[a]), b))
  }

  lemma {:induction false} BoundaryTrans(code: seq<byte>, a: int, b: int, c: int)
    requires Boundary(code, a, b) && Boundary(code, b, c)
    ensures a <= b <= c && Boundary(code, a, c)
    decreases b - a
  {
    BoundaryOrder(code, b, c);
    if a != b {
      BoundaryOrder(code, a, b);
      BoundaryTrans(code, a + Width(code[a]), b, c);
    }
  }

  lemma BoundaryOrder(code: seq<byte>, a: int, b: int)
    requires Boundary(code, a, b)
    ensures a <= b
  {
  }

  /** Two points on one walk are on each other's walks. */
  lemma {:induction false} BoundarySplit(code: seq<byte>, a: int, b: int, c: int)
    requires Boundary(code, a, b) && Boundary(code, a, c) && b <= c
    ensures Boundary(code, b, c)
    decreases b - a
  {
    if a != b {
      BoundaryOrder(code, a + Width(code[a]), b);
      BoundarySplit(code, a + Width(code[a]), b, c);
    }
  }

  lemma {:induction false} WalkBoundary(code: seq<byte>, offset: nat, i: nat)
    requires i < |code|
    ensures i in Walk(code, offset) <==> Boundary(code, offset, i)
    decreases |code| - offset
  {
    if offset < |code| {
      WalkBoundary(code, offset + Width(code[offset]), i);
    }
  }

  /** Where the instruction at `s` may send the machine other than behind itself. */
  function Targets(code: seq<byte>, s: int): set<int>
    requires 0 <= s < |code| && s + Width(code[s]) <= |code|
  {
    if OP_JUMP <= code[s] <= OP_JUMP_BACK then
      var skip := Short(code[s + 1], code[s + 2]);
      {if code[s] == OP_JUMP_BACK then s + 3 - skip else s + 3 + skip}
    else {}
  }

  /** `s` starts a whole instruction, and its jump goes into `outer` or to a point on
      the walk from `a` to `b`. */
  predicate Sound(code: seq<byte>, s: int, a: int, b: int, outer: set<int>) {
    && 0 <= s < |code| && s + Width(code[s]) <= b <= |code| && Plain(code[s])
    && forall t :: t in Targets(code, s) ==> t in outer || (a <= t <= b && Boundary(code, a, t))
  }

  /** The stretch from `a` to `b` consists of sound instructions. */
  predicate Fits(code: seq<byte>, a: int, b: int, outer: set<int>) {
    && Boundary(code, a, b)
    && forall s :: a <= s < b && Boundary(code, a, s) ==> Sound(code, s, a, b, outer)
  }

  lemma FitsTrans(code: seq<byte>, a: int, b: int, c: int, outer: set<int>)
    requires Fits(code, a, b, outer) && Fits(code, b, c, outer)
    ensures Fits(code, a, c, outer)
  {
    BoundaryTrans(code, a, b, c);
    if b < c {
      assert Sound(code, b, b, c, outer);
    }
    forall s | a <= s < c && Boundary(code, a, s)
      ensures Sound(code, s, a, c, outer)
    {
      if s < b {
        assert Sound(code, s, a, b, outer);
      } else {
        BoundarySplit(code, a, b, s);
        assert Sound(code, s, b, c, outer);
        forall t | t in Targets(code, s) && t !in outer
          ensures a <= t <= c && Boundary(code, a, t)
        {
          BoundaryTrans(code, a, b, t);
        }
      }
    }
  }

  /** Jumps to points inside the stretch need no mention. */
  lemma FitsInner(code: seq<byte>, a: int, b: int, inner: set<int>, outer: set<int>)
    requires Fits(code, a, b, inner)
    requires forall t :: t in inner ==> t in outer || (a <= t <= b && Boundary(code, a, t))
    ensures Fits(code, a, b, outer)
  {
    forall s | a <= s < b && Boundary(code, a, s)
      ensures Sound(code, s, a, b, outer)
    {
      assert Sound(code, s, a, b, inner);
    }
  }

  lemma FitsOne(code: seq<byte>, a: int, outer: set<int>)
    requires 0 <= a < |code| && a + Width(code[a]) <= |code| && Plain(code[a]) && Targets(code, a) <= outer
    ensures Fits(code, a, a + Width(code[a]), outer)
  {
    var b := a + Width(code[a]);
    forall s | a <= s < b && Boundary(code, a, s)
      ensures s == a
    {
      if s != a {
        BoundaryOrder(code, b, s);
      }
    }
    assert Boundary(code, b, b) && Sound(code, a, a, b, outer);
  }

  // ----- compiled code -----

  lemma FitsNothing(code: seq<byte>, a: int, outer: set<int>)
    ensures Fits(code, a, a, outer)
  {
  }

  lemma FitsByte(code: seq<byte>, a: int, op: byte, outer: set<int>)
    requires At(code, a, [op]) && Width(op) == 1 && Plain(op)
    ensures Fits(code, a, a + 1, outer)
  {
    assert code[a..a + 1][0] == op;
    FitsOne(code, a, outer);
  }

  lemma FitsPair(code: seq<byte>, a: int, op: byte, k: byte, outer: set<int>)
    requires At(code, a, [op, k]) && Width(op) == 2 && Plain(op)
    ensures Fits(code, a, a + 2, outer)
  {
    assert code[a..a + 2][0] == op;
    FitsOne(code, a, outer);
  }

  lemma FitsForward(code: seq<byte>, a: int, op: byte, skip: nat)
    requires At(code, a, Forward(op, skip)) && skip <= 0xffff && (op == OP_JUMP || op == OP_JUMP_IF_FALSE)
    ensures Fits(code, a, a + 3, {a + 3 + skip})
  {
    hide Hi, Lo, Short, Boundary;
    var g := code[a..a + 3];
    assert g[0] == op && g[1] == Hi(skip) && g[2] == Lo(skip);
    ShortOf(skip);
    FitsOne(code, a, {a + 3 + skip});
  }

  lemma FitsBackward(code: seq<byte>, a: int, skip: nat)
    requires At(code, a, Backward(skip)) && skip <= 0xffff
    ensures Fits(code, a, a + 3, {a + 3 - skip})
  {
    hide Hi, Lo, Short, Boundary;
    var g := code[a..a + 3];
    assert g[0] == OP_JUMP_BACK && g[1] == Hi(skip) && g[2] == Lo(skip);
    ShortOf(skip);
    FitsOne(code, a, {a + 3 - skip});
  }

  lemma Widen(code: seq<byte>, a: int, b: int, inner: set<int>, outer: set<int>)
    requires Fits(code, a, b, inner) && inner <= outer
    ensures Fits(code, a, b, outer)
  {
    FitsInner(code, a, b, inner, outer);
  }

  predicate OneByte(op: byte) { Width(op) == 1 && Plain(op) }
  predicate TwoBytes(op: byte) { Width(op) == 2 && Plain(op) }

  lemma AppendByte(code: seq<byte>, pc: int, g: seq<byte>, op: byte, outer: set<int>)
    requires At(code, pc, g + [op]) && OneByte(op) && Fits(code, pc, pc + |g|, outer)
    ensures Fits(code, pc, pc + |g| + 1, outer)
  {
    hide Fits;
    AtSplit(code, pc, g, [op]);
    FitsByte(code, pc + |g|, op, outer);
    FitsTrans(code, pc, pc + |g|, pc + |g| + 1, outer);
  }

  lemma AppendPair(code: seq<byte>, pc: int, g: seq<byte>, op: byte, k: byte, outer: set<int>)
    requires At(code, pc, g + [op, k]) && TwoBytes(op) && Fits(code, pc, pc + |g|, outer)
    ensures Fits(code, pc, pc + |g| + 2, outer)
  {
    hide Fits;
    AtSplit(code, pc, g, [op, k]);
    FitsPair(code, pc + |g|, op, k, outer);
    FitsTrans(code, pc, pc + |g|, pc + |g| + 2, outer);
  }

  lemma {:induction false} FitsExpr(code: seq<byte>, pc: int, e: Expr, s: Static)
    requires SupportedExpr(e) && At(code, pc, GenExpr(e, s).code)
    ensures Fits(code, pc, pc + |GenExpr(e, s).code|, {})
    decreases e, 1
  {
    hide Fits, OneByte, TwoBytes, BinaryOpcode, UnaryOpcode, At, WithConstant;
    OpcodeWidths();
    match e
    case Binary(_, _, _) => FitsBinary(code, pc, e, s);
    case Unary(op, x) =>
      var g := GenExpr(x, s);
      AtSplit(code, pc, g.code, [UnaryOpcode(op)]);
      FitsExpr(code, pc, x, s);
      AppendByte(code, pc, g.code, UnaryOpcode(op), {});
    case Call(_, _) => FitsCall(code, pc, e, s);
    case ArrayLit(es) =>
      var g := GenExprs(es, s);
      AtSplit(code, pc, g.code, [OP_ARRAY, |es| % 256]);
      FitsExprs(code, pc, es, s);
      AppendPair(code, pc, g.code, OP_ARRAY, |es| % 256, {});
    case Assign(t, x) =>
      var g := GenExpr(x, s);
      var h := GenTarget(t, g.s);
      TargetCode(t, g.s);
      AtSplit(code, pc, g.code, h.code);
      FitsExpr(code, pc, x, s);
      AppendPair(code, pc, g.code, h.code[0], h.code[1], {});
    case _ => FitsLeaf(code, pc, e, s);
  }

  lemma {:induction false} FitsBinary(code: seq<byte>, pc: int, e: Expr, s: Static)
    requires e.Binary? && SupportedExpr(e) && At(code, pc, GenExpr(e, s).code)
    ensures Fits(code, pc, pc + |GenExpr(e, s).code|, {})
    decreases e, 0
  {
    hide Fits, OneByte, TwoBytes, BinaryOpcode, At, GenExpr;
    OpcodeWidths();
    var Binary(op, l, r) := e;
    BinaryCode(op, l, r, s);
    var g := GenExpr(l, s);
    var h := GenExpr(r, g.s);
    AtSplit(code, pc, g.code + h.code, [BinaryOpcode(op)]);
    AtSplit(code, pc, g.code, h.code);
    FitsExpr(code, pc, l, s);
    FitsExpr(code, pc + |g.code|, r, g.s);
    FitsTrans(code, pc, pc + |g.code|, pc + |g.code| + |h.code|, {});
    AppendByte(code, pc, g.code + h.code, BinaryOpcode(op), {});
  }

  lemma {:induction false} FitsCall(code: seq<byte>, pc: int, e: Expr, s: Static)
    requires e.Call? && SupportedExpr(e) && At(code, pc, GenExpr(e, s).code)
    ensures Fits(code, pc, pc + |GenExpr(e, s).code|, {})
    decreases e, 0
  {
    hide Fits, OneByte, TwoBytes, BinaryOpcode, At, GenExpr, GenExprs;
    OpcodeWidths();
    var Call(f, args) := e;
    CallCode(f, args, s);
    var g := GenExpr(f, s);
    var h := GenExprs(args, g.s);
    AtSplit(code, pc, g.code + h.code, [OP_CALL, |args| % 256]);
    AtSplit(code, pc, g.code, h.code);
    FitsExpr(code, pc, f, s);
    FitsExprs(code, pc + |g.code|, args, g.s);
    FitsTrans(code, pc, pc + |g.code|, pc + |g.code| + |h.code|, {});
    AppendPair(code, pc, g.code + h.code, OP_CALL, |args| % 256, {});
  }

  lemma TargetCode(t: Expr, s: Static)
    requires t.Ident?
    ensures var h := GenTarget(t, s);
      |h.code| == 2 && h.code == [h.code[0], h.code[1]] && h.code[0] in {OP_SET_LOCAL, OP_SET_GLOBAL}
  {
  }

  lemma BinaryCode(op: BinOp, l: Expr, r: Expr, s: Static)
    ensures
      var g := GenExpr(l, s);
      var h := GenExpr(r, g.s);
      GenExpr(Binary(op, l, r), s) == Emitted(g.code + h.code + [BinaryOpcode(op)], h.s)
  {
    hide BinaryOpcode;
  }

  lemma CallCode(f: Expr, args: seq<Expr>, s: Static)
    ensures
      var g := GenExpr(f, s);
      var h := GenExprs(args, g.s);
      GenExpr(Call(f, args), s) == Emitted(g.code + h.code + [OP_CALL, |args| % 256], h.s)
  {
  }

  lemma FitsLeaf(code: seq<byte>, pc: int, e: Expr, s: Static)
    requires e.IntLit? || e.FloatLit? || e.StringLit? || e.BoolLit? || e.NilLit? || e.Ident?
    requires At(code, pc, GenExpr(e, s).code)
    ensures Fits(code, pc, pc + |GenExpr(e, s).code|, {})
  {
    hide Fits;
    var g := GenExpr(e, s);
    OpcodeWidths();
    if e.BoolLit? || e.NilLit? {
      FitsByte(code, pc, g.code[0], {});
    } else {
      assert g.code == [g.code[0], g.code[1]];
      FitsPair(code, pc, g.code[0], g.code[1], {});
    }
  }

  lemma OpcodeWidths()
    ensures forall op: BinOp :: OneByte(BinaryOpcode(op))
    ensures forall op: UnOp :: OneByte(UnaryOpcode(op))
    ensures OneByte(OP_POP) && OneByte(OP_LESS) && OneByte(OP_ADD) && OneByte(OP_TRUE) && OneByte(OP_FALSE)
    ensures OneByte(OP_NIL) && OneByte(OP_RETURN) && OneByte(OP_PRINT) && OneByte(OP_HALT)
    ensures TwoBytes(OP_CONSTANT) && TwoBytes(OP_GET_LOCAL) && TwoBytes(OP_SET_LOCAL) && TwoBytes(OP_GET_GLOBAL)
    ensures TwoBytes(OP_SET_GLOBAL) && TwoBytes(OP_CALL) && TwoBytes(OP_ARRAY)
  {
  }

  lemma {:induction false} FitsExprs(code: seq<byte>, pc: int, es: seq<Expr>, s: Static)
    requires SupportedExprs(es) && At(code, pc, GenExprs(es, s).code)
    ensures Fits(code, pc, pc + |GenExprs(es, s).code|, {})
    decreases es, 0
  {
    hide Fits, GenExpr;
    if es == [] {
      FitsNothing(code, pc, {});
    } else {
      var g := GenExpr(es[0], s);
      var h := GenExprs(es[1..], g.s);
      AtSplit(code, pc, g.code, h.code);
      FitsExpr(code, pc, es[0], s);
      FitsExprs(code, pc + |g.code|, es[1..], g.s);
      FitsTrans(code, pc, pc + |g.code|, pc + |g.code| + |h.code|, {});
    }
  }

  lemma FitsOption(code: seq<byte>, pc: int, e: Option<Expr>, s: Static)
    requires SupportedOption(e) && At(code, pc, GenOption(e, s).code)
    ensures Fits(code, pc, pc + |GenOption(e, s).code|, {})
  {
    hide Fits, GenExpr, SupportedExpr;
    if e.Some? {
      FitsExpr(code, pc, e.value, s);
    } else {
      FitsByte(code, pc, OP_NIL, {});
    }
  }

  lemma {:induction false} FitsPops(code: seq<byte>, pc: int, n: nat)
    requires At(code, pc, Pops(n))
    ensures Fits(code, pc, pc + n, {})
  {
    hide Fits;
    if n == 0 {
      FitsNothing(code, pc, {});
    } else {
      assert Pops(n) == Pops(n - 1) + [OP_POP];
      AtSplit(code, pc, Pops(n - 1), [OP_POP]);
      FitsPops(code, pc, n - 1);
      AppendByte(code, pc, Pops(n - 1), OP_POP, {});
    }
  }

  /** A forward jump with what it skips, up to its target. */
  lemma FitsSkip(code: seq<byte>, a: int, op: byte, skip: nat, outer: set<int>)
    requires At(code, a, Forward(op, skip)) && skip <= 0xffff && (op == OP_JUMP || op == OP_JUMP_IF_FALSE)
    requires Fits(code, a + 3, a + 3 + skip, outer)
    ensures Fits(code, a, a + 3 + skip, outer)
  {
    hide Width, Forward, Sound;
    var t := a + 3 + skip;
    FitsForward(code, a, op, skip);
    Widen(code, a, a + 3, {t}, outer + {t});
    Widen(code, a + 3, t, outer, outer + {t});
    FitsTrans(code, a, a + 3, t, outer + {t});
    FitsInner(code, a, t, outer + {t}, outer);
  }

  /** A jump target within the stretch is dropped from the mentioned ones. */
  lemma Closed(code: seq<byte>, a: int, b: int, t: int)
    requires Fits(code, a, b, {t}) && a <= t <= b && Boundary(code, a, t)
    ensures Fits(code, a, b, {})
  {
    FitsInner(code, a, b, {t}, {});
  }

  lemma {:induction false} FitsStmt(code: seq<byte>, pc: int, s: Stmt, depth: nat, st: Static)
    requires Supported(s) && |code| <= 0xffff && At(code, pc, GenStmt(s, depth, st).code)
    ensures Fits(code, pc, pc + |GenStmt(s, depth, st).code|, {})
    decreases s, 1
  {
    hide Fits, OneByte, TwoBytes, At, GenExpr, Forward, Backward, GenForLoop, WithConstant;
    OpcodeWidths();
    match s
    case Let(name, init) =>
      var g := GenOption(init, st);
      if depth > 0 {
        FitsOption(code, pc, init, st);
      } else {
        var h := ConstantCode(OP_SET_GLOBAL, Str(name), g.s);
        AtSplit(code, pc, g.code, h);
        FitsOption(code, pc, init, st);
        AppendPair(code, pc, g.code, h[0], h[1], {});
      }
    case If(_, _, e) =>
      if e.Some? { FitsIfElse(code, pc, s, depth, st); } else { FitsIfThen(code, pc, s, depth, st); }
    case While(_, _) => FitsWhile(code, pc, s, depth, st);
    case For(_, _, _, _) => FitsFor(code, pc, s, depth, st);
    case Block(ss) =>
      var g := GenStmts(ss, depth + 1, st);
      FitsScope(code, pc, g, depth, pc + |g.code|);
      FitsStmts(code, pc, ss, depth + 1, st);
      FitsTrans(code, pc, pc + |g.code|, pc + |EndScope(g, depth).code|, {});
    case Function(name, _, _, _) =>
      if depth == 0 {
        var h := ConstantCode(OP_SET_GLOBAL, Str(name), st);
        AtSplit(code, pc, [OP_NIL], h);
        FitsByte1(code, pc, OP_NIL);
        AppendPair(code, pc, [OP_NIL], h[0], h[1], {});
      } else {
        FitsByte1(code, pc, OP_NIL);
      }
    case Return(r) =>
      var g := GenOption(r, st);
      AtSplit(code, pc, g.code, [OP_RETURN]);
      FitsOption(code, pc, r, st);
      AppendByte(code, pc, g.code, OP_RETURN, {});
    case Print(e) =>
      AtSplit(code, pc, GenExpr(e, st).code, [OP_PRINT]);
      FitsExpr(code, pc, e, st);
      AppendByte(code, pc, GenExpr(e, st).code, OP_PRINT, {});
    case ExprStmt(e) =>
      AtSplit(code, pc, GenExpr(e, st).code, [OP_POP]);
      FitsExpr(code, pc, e, st);
      AppendByte(code, pc, GenExpr(e, st).code, OP_POP, {});
    case _ => NotSupported(s);
  }

  lemma FitsByte1(code: seq<byte>, pc: int, op: byte)
    requires At(code, pc, [op]) && OneByte(op)
    ensures Fits(code, pc, pc + 1, {})
  {
    FitsByte(code, pc, op, {});
  }

  function ConstantCode(op: byte, v: Value, s: Static): (code: seq<byte>)
    ensures code == WithConstant(op, v, s).code && |code| == 2 && code[0] == op && code == [code[0], code[1]]
  {
    WithConstant(op, v, s).code
  }

  /** The pops at the end of a scope whose code ends at `end`. */
  lemma FitsScope(code: seq<byte>, pc: int, g: Emitted, depth: int, end: int)
    requires At(code, pc, EndScope(g, depth).code) && end == pc + |g.code|
    ensures At(code, pc, g.code)
    ensures Fits(code, end, pc + |EndScope(g, depth).code|, {})
  {
    hide Fits, CountAbove;
    var n := CountAbove(g.s.locals, depth);
    AtSplit(code, pc, g.code, Pops(n));
    FitsPops(code, end, n);
  }

  lemma {:induction false} FitsStmts(code: seq<byte>, pc: int, ss: seq<Stmt>, depth: nat, st: Static)
    requires SupportedList(ss) && |code| <= 0xffff && At(code, pc, GenStmts(ss, depth, st).code)
    ensures Fits(code, pc, pc + |GenStmts(ss, depth, st).code|, {})
    decreases ss, 0
  {
    hide Fits, GenStmt, Supported;
    if ss == [] {
      FitsNothing(code, pc, {});
    } else {
      var g := GenStmt(ss[0], depth, st);
      var h := GenStmts(ss[1..], depth, g.s);
      AtSplit(code, pc, g.code, h.code);
      FitsStmt(code, pc, ss[0], depth, st);
      FitsStmts(code, pc + |g.code|, ss[1..], depth, g.s);
      FitsTrans(code, pc, pc + |g.code|, pc + |g.code| + |h.code|, {});
    }
  }

  /** A pop in front of a statement's code. */
  lemma FitsPopThen(code: seq<byte>, a: int, b: int, outer: set<int>)
    requires At(code, a, [OP_POP]) && Fits(code, a + 1, b, outer)
    ensures Fits(code, a, b, outer)
  {
    hide Fits, OneByte;
    OpcodeWidths();
    FitsByte1(code, a, OP_POP);
    Widen(code, a, a + 1, {}, outer);
    FitsTrans(code, a, a + 1, b, outer);
  }

  /** A test that skips up to `to`, where both ways pop. */
  lemma FitsTest(code: seq<byte>, test: int, to: int, outer: set<int>)
    requires test + 3 <= to <= test + 3 + 0xffff && At(code, test, Forward(OP_JUMP_IF_FALSE, to - test - 3))
    requires At(code, test + 3, [OP_POP]) && Fits(code, test + 4, to, outer) && At(code, to, [OP_POP])
    ensures Fits(code, test, to + 1, outer)
  {
    hide Fits, OneByte, Forward;
    OpcodeWidths();
    FitsPopThen(code, test + 3, to, outer);
    FitsSkip(code, test, OP_JUMP_IF_FALSE, to - test - 3, outer);
    FitsByte1(code, to, OP_POP);
    Widen(code, to, to + 1, {}, outer);
    FitsTrans(code, test, to, to + 1, outer);
  }

  /** The two branches of an `if`: the first ends with a jump over the second. */
  lemma FitsBranches(code: seq<byte>, test: int, jump: int, end: int)
    requires test + 4 <= jump && jump + 4 <= end && |code| <= 0xffff && 0 <= test && end <= |code|
    requires At(code, test, Forward(OP_JUMP_IF_FALSE, jump - test)) && At(code, test + 3, [OP_POP])
    requires Fits(code, test + 4, jump, {}) && At(code, jump, Forward(OP_JUMP, end - jump - 3))
    requires At(code, jump + 3, [OP_POP]) && Fits(code, jump + 4, end, {})
    ensures Fits(code, test, end, {})
  {
    hide Fits, Forward;
    Widen(code, test + 4, jump, {}, {end});
    FitsForward(code, jump, OP_JUMP, end - jump - 3);
    FitsTrans(code, test + 4, jump, jump + 3, {end});
    FitsTest(code, test, jump + 3, {end});
    Widen(code, jump + 4, end, {}, {end});
    FitsTrans(code, test, jump + 4, end, {end});
    FitsEnds(code, test, end, {end});
    Closed(code, test, end, end);
  }

  /** A loop: its last jump goes back to where the condition starts. */
  lemma FitsRound(code: seq<byte>, start: int, test: int, jump: int)
    requires 0 <= start && test + 4 <= jump && jump + 4 <= |code| <= 0xffff
    requires Fits(code, start, test, {}) && At(code, test, Forward(OP_JUMP_IF_FALSE, jump - test)) &&
      At(code, test + 3, [OP_POP])
    requires start <= jump + 3
    requires Fits(code, test + 4, jump, {}) && At(code, jump, Backward(jump + 3 - start)) &&
      At(code, jump + 3, [OP_POP])
    ensures Fits(code, start, jump + 4, {})
  {
    hide Fits, Forward, Backward;
    Widen(code, test + 4, jump, {}, {start});
    FitsBackward(code, jump, jump + 3 - start);
    FitsTrans(code, test + 4, jump, jump + 3, {start});
    FitsTest(code, test, jump + 3, {start});
    Widen(code, start, test, {}, {start});
    FitsTrans(code, start, test, jump + 4, {start});
    FitsEnds(code, start, jump + 4, {start});
    Closed(code, start, jump + 4, start);
  }

  lemma SupportedParts(s: Stmt)
    requires Supported(s)
    ensures s.If? ==> SupportedExpr(s.cond) && Supported(s.thenBranch)
    ensures s.If? && s.elseBranch.Some? ==> Supported(s.elseBranch.value)
    ensures s.While? ==> SupportedExpr(s.cond) && s.body.Block? && SupportedList(s.body.stmts)
    ensures s.For? ==> SupportedExpr(s.start) && SupportedExpr(s.end) && s.body.Block? && SupportedList(s.body.stmts)
  {
  }

  lemma {:induction false} FitsIfThen(code: seq<byte>, pc: int, s: Stmt, depth: nat, st: Static)
    requires s.If? && s.elseBranch.None?
    requires Supported(s) && |code| <= 0xffff && At(code, pc, GenStmt(s, depth, st).code)
    ensures Fits(code, pc, pc + |GenStmt(s, depth, st).code|, {})
    decreases s, 0
  {
    hide At, Fits, GenExpr, GenStmt, GenBody, GenStmts, SupportedExpr, Supported, SupportedList, Forward, Backward;
    IfThenPlaces(code, pc, s, depth, st);
    SupportedParts(s);
    var g := GenExpr(s.cond, st);
    var h := GenStmt(s.thenBranch, depth, g.s);
    var test := pc + |g.code|;
    FitsExpr(code, pc, s.cond, st);
    FitsStmt(code, test + 4, s.thenBranch, depth, g.s);
    FitsTest(code, test, test + 4 + |h.code|, {});
    FitsTrans(code, pc, test, test + 4 + |h.code| + 1, {});
  }

  lemma {:induction false} FitsIfElse(code: seq<byte>, pc: int, s: Stmt, depth: nat, st: Static)
    requires s.If? && s.elseBranch.Some?
    requires Supported(s) && |code| <= 0xffff && At(code, pc, GenStmt(s, depth, st).code)
    ensures Fits(code, pc, pc + |GenStmt(s, depth, st).code|, {})
    decreases s, 0
  {
    hide Fits, GenExpr, GenStmt, GenBody, GenStmts, SupportedExpr, Supported, SupportedList, Forward, Backward, At;
    IfPlaces(code, pc, s, depth, st);
    SupportedParts(s);
    var g := GenExpr(s.cond, st);
    var h := GenStmt(s.thenBranch, depth, g.s);
    var skip := 1 + |h.code| + 3;
    var hs := TooFar(h.s, skip > 0xffff);
    var w := GenStmt(s.elseBranch.value, depth, hs);
    var test := pc + |g.code|;
    var jump := test + 4 + |h.code|;
    var end := jump + 4 + |w.code|;
    FitsExpr(code, pc, s.cond, st);
    FitsStmt(code, test + 4, s.thenBranch, depth, g.s);
    FitsStmt(code, jump + 4, s.elseBranch.value, depth, hs);
    FitsBranches(code, test, jump, end);
    FitsTrans(code, pc, test, end, {});
  }

  lemma FitsEnds(code: seq<byte>, a: int, b: int, outer: set<int>)
    requires Fits(code, a, b, outer)
    ensures a <= b && Boundary(code, a, b) && Boundary(code, a, a)
  {
    BoundaryOrder(code, a, b);
  }

  lemma {:induction false} FitsWhile(code: seq<byte>, pc: int, s: Stmt, depth: nat, st: Static)
    requires s.While? && Supported(s) && |code| <= 0xffff && At(code, pc, GenStmt(s, depth, st).code)
    ensures Fits(code, pc, pc + |GenStmt(s, depth, st).code|, {})
    decreases s, 0
  {
    hide Fits, GenExpr, GenStmt, GenBody, GenStmts, SupportedExpr, Supported, SupportedList, Forward, Backward, At;
    SupportedParts(s);
    var g := GenExpr(s.cond, st);
    var h := GenStmts(s.body.stmts, depth, g.s);
    var test := pc + |g.code|;
    WhilePlaces(code, pc, s, depth, st);
    FitsExpr(code, pc, s.cond, st);
    FitsStmts(code, test + 4, s.body.stmts, depth, g.s);
    FitsRound(code, pc, test, test + 4 + |h.code|);
  }

  lemma {:induction false} FitsFor(code: seq<byte>, pc: int, s: Stmt, depth: nat, st: Static)
    requires s.For? && Supported(s) && |code| <= 0xffff && At(code, pc, GenStmt(s, depth, st).code)
    ensures Fits(code, pc, pc + |GenStmt(s, depth, st).code|, {})
    decreases s, 0
  {
    hide Fits, GenExpr, GenForLoop, SupportedExpr, SupportedList, EndScope, Width;
    SupportedParts(s);
    var g := GenExpr(s.start, st);
    var (slot, s1) := AddLocal(g.s, s.name, depth + 1);
    var h := GenForLoop(s.end, s.body, slot, depth + 1, s1);
    var all := Emitted(g.code + h.code, h.s);
    var from := pc + |g.code|;
    var to := from + |h.code|;
    FitsScope(code, pc, all, depth, to);
    AtSplit(code, pc, g.code, h.code);
    FitsExpr(code, pc, s.start, st);
    FitsForLoop(code, from, s, slot, depth + 1, s1);
    FitsTrans(code, pc, from, to, {});
    FitsTrans(code, pc, to, pc + |GenStmt(s, depth, st).code|, {});
  }

  lemma {:induction false} FitsForLoop(code: seq<byte>, pc: int, s: Stmt, slot: byte, depth: nat, st: Static)
    requires s.For? && Supported(s) && |code| <= 0xffff && At(code, pc, GenForLoop(s.end, s.body, slot, depth, st).code)
    ensures Fits(code, pc, pc + |GenForLoop(s.end, s.body, slot, depth, st).code|, {})
    decreases s, 0, 1
  {
    hide Fits, At, GenExpr, GenForLoop, GenStmts, SupportedExpr, SupportedList, Forward, Backward, Increment,
         Supported, LoopTest;
    SupportedParts(s);
    var g := GenExpr(s.end, st);
    var h := GenStmts(s.body.stmts, depth, g.s);
    var next := Increment(slot, h.s);
    var test := pc + |LoopTest(slot, g)|;
    LoopPlaces(code, pc, s, slot, depth, st);
    FitsLoopTest(code, pc, s.end, slot, st);
    FitsLoopBody(code, test + 4, s, slot, depth, g.s);
    FitsRound(code, pc, test, test + 4 + |h.code| + |next.code|);
  }

  /** The body of a `for` loop and the increment behind it. */
  lemma {:induction false} FitsLoopBody(code: seq<byte>, pc: int, s: Stmt, slot: byte, depth: nat, st: Static)
    requires s.For? && Supported(s) && s.body.Block? && SupportedList(s.body.stmts) && |code| <= 0xffff
    requires
      var h := GenStmts(s.body.stmts, depth, st);
      At(code, pc, h.code) && At(code, pc + |h.code|, Increment(slot, h.s).code)
    ensures
      var h := GenStmts(s.body.stmts, depth, st);
      Fits(code, pc, pc + |h.code| + |Increment(slot, h.s).code|, {})
    decreases s, 0, 0
  {
    hide Fits, GenStmts, SupportedExpr, SupportedList, Supported, Increment, At;
    var h := GenStmts(s.body.stmts, depth, st);
    var mid := pc + |h.code|;
    FitsStmts(code, pc, s.body.stmts, depth, st);
    FitsIncrement(code, mid, slot, h.s);
    FitsTrans(code, pc, mid, mid + |Increment(slot, h.s).code|, {});
  }

  /** Where the pieces of a `for` loop stand. */
  lemma LoopPlaces(code: seq<byte>, pc: int, s: Stmt, slot: byte, depth: nat, st: Static)
    requires s.For? && s.body.Block? && At(code, pc, GenForLoop(s.end, s.body, slot, depth, st).code)
    ensures
      var g := GenExpr(s.end, st);
      var h := GenStmts(s.body.stmts, depth, g.s);
      var next := Increment(slot, h.s).code;
      var test := pc + |LoopTest(slot, g)|;
      var jump := test + 4 + |h.code| + |next|;
      && At(code, pc, LoopTest(slot, g)) && At(code, test, Forward(OP_JUMP_IF_FALSE, jump - test))
      && At(code, test + 3, [OP_POP]) && At(code, test + 4, h.code) && At(code, test + 4 + |h.code|, next)
      && At(code, jump, Backward(jump + 3 - pc)) && At(code, jump + 3, [OP_POP])
      && pc + |GenForLoop(s.end, s.body, slot, depth, st).code| == jump + 4 <= |code| && 0 <= pc
  {
    hide GenExpr, GenStmts, Forward, Backward, Increment;
    var g := GenExpr(s.end, st);
    var test := LoopTest(slot, g);
    AtSplit(code, pc, test, GenRound(s.body, slot, depth, |test|, g.s).code);
    RoundLayout(code, s.body, slot, depth, |test|, g.s, pc + |test|);
    LoopLength(s, slot, depth, st);
  }

  lemma LoopLength(s: Stmt, slot: byte, depth: nat, st: Static)
    requires s.For? && s.body.Block?
    ensures
      var g := GenExpr(s.end, st);
      var h := GenStmts(s.body.stmts, depth, g.s);
      |GenForLoop(s.end, s.body, slot, depth, st).code|
      == |LoopTest(slot, g)| + 4 + |h.code| + |Increment(slot, h.s).code| + 4
  {
    hide GenExpr, GenStmts, Increment;
    var g := GenExpr(s.end, st);
    GenBodyBlock(s.body, depth, g.s);
    assert GenForLoop(s.end, s.body, slot, depth, st).code
        == LoopTest(slot, g) + GenRound(s.body, slot, depth, |LoopTest(slot, g)|, g.s).code;
  }

  lemma FitsLoopTest(code: seq<byte>, pc: int, e: Expr, slot: byte, st: Static)
    requires SupportedExpr(e) && At(code, pc, LoopTest(slot, GenExpr(e, st)))
    ensures Fits(code, pc, pc + |LoopTest(slot, GenExpr(e, st))|, {})
  {
    hide Fits, GenExpr, OneByte, TwoBytes;
    OpcodeWidths();
    var g := GenExpr(e, st);
    AtSplit(code, pc, [OP_GET_LOCAL, slot] + g.code, [OP_LESS]);
    AtSplit(code, pc, [OP_GET_LOCAL, slot], g.code);
    FitsNothing(code, pc, {});
    assert [] + [OP_GET_LOCAL, slot] == [OP_GET_LOCAL, slot];
    AppendPair(code, pc, [], OP_GET_LOCAL, slot, {});
    FitsExpr(code, pc + 2, e, st);
    FitsTrans(code, pc, pc + 2, pc + 2 + |g.code|, {});
    AppendByte(code, pc, [OP_GET_LOCAL, slot] + g.code, OP_LESS, {});
  }

  lemma FitsIncrement(code: seq<byte>, pc: int, slot: byte, st: Static)
    requires At(code, pc, Increment(slot, st).code)
    ensures Fits(code, pc, pc + |Increment(slot, st).code|, {})
  {
    hide Fits, OneByte, TwoBytes, WithConstant;
    OpcodeWidths();
    var one := ConstantCode(OP_CONSTANT, Int(1), st);
    var a := [OP_GET_LOCAL, slot];
    AtSplit(code, pc, a + one + [OP_ADD] + [OP_SET_LOCAL, slot], [OP_POP]);
    AtSplit(code, pc, a + one + [OP_ADD], [OP_SET_LOCAL, slot]);
    AtSplit(code, pc, a + one, [OP_ADD]);
    AtSplit(code, pc, a, one);
    FitsNothing(code, pc, {});
    assert [] + a == a;
    AppendPair(code, pc, [], OP_GET_LOCAL, slot, {});
    AppendPair(code, pc, a, one[0], one[1], {});
    AppendByte(code, pc, a + one, OP_ADD, {});
    AppendPair(code, pc, a + one + [OP_ADD], OP_SET_LOCAL, slot, {});
    AppendByte(code, pc, a + one + [OP_ADD] + [OP_SET_LOCAL, slot], OP_POP, {});
  }

  // ----- the machine stays on the walk -----

  /** Compiled code, with its HALT, consists of whole instructions, and every jump
      goes to the start of one. */
  lemma CompiledFits(P: Prims, program: seq<Stmt>, tolerant: bool)
    requires SupportedList(program) && |GenProgram(program).code| < 0xffff
    ensures var code := Load(P, program, tolerant).code; Fits(code, 0, |code|, {})
  {
    hide Fits, GenStmts, OneByte;
    OpcodeWidths();
    var g := GenProgram(program).code;
    var code := g + [OP_HALT];
    assert At(code, 0, code);
    AtSplit(code, 0, g, [OP_HALT]);
    FitsStmts(code, 0, program, 0, Static([], [], false));
    AppendByte(code, 0, g, OP_HALT, {});
  }

  /** One step keeps the machine on the walk. */
  lemma StepStaysOnWalk(m: Vm, c: Conf)
    requires Fits(m.code, 0, |m.code|, {}) && c.Running? && 0 <= c.pc < |m.code| && Boundary(m.code, 0, c.pc)
    requires m.Step(c).Running?
    ensures 0 <= m.Step(c).pc <= |m.code| && Boundary(m.code, 0, m.Step(c).pc)
  {
    hide ApplyBinary, ApplyUnary, CallNative, BinaryOf;
    var code, pc := m.code, c.pc;
    assert Sound(code, pc, 0, |code|, {});
    var next := pc + Width(code[pc]);
    WidthsAgree(code[pc]);
    assert Boundary(code, pc, next);
    BoundaryTrans(code, 0, pc, next);
    var c' := m.Step(c);
    assert c'.pc == next || c'.pc in Targets(code, pc);
  }

  /** The machine executes only instructions that the disassembler lists. */
  lemma {:induction false} ExecutedIsListed(P: Prims, program: seq<Stmt>, tolerant: bool, n: nat)
    requires SupportedList(program) && |GenProgram(program).code| < 0xffff
    ensures
      var m := Load(P, program, tolerant);
      var c := m.Run(n, Boot());
      c.Running? ==> 0 <= c.pc <= |m.code| && Boundary(m.code, 0, c.pc)
                     && (c.pc < |m.code| ==> c.pc in Walk(m.code, 0))
  {
    hide Vm.Step, GenProgram, Fits;
    var m := Load(P, program, tolerant);
    var c := m.Run(n, Boot());
    if n > 0 {
      ExecutedIsListed(P, program, tolerant, n - 1);
      m.RunAdd(n - 1, 1, Boot());
      CompiledFits(P, program, tolerant);
      var b := m.Run(n - 1, Boot());
      if c.Running? {
        OneStep(m, b);
        StepStaysOnWalk(m, b);
      }
    }
    if c.Running? && c.pc < |m.code| {
      WalkBoundary(m.code, 0, c.pc);
    }
  }

  lemma OneStep(m: Vm, b: Conf)
    requires m.Run(1, b).Running?
    ensures b.Running? && m.Run(1, b) == m.Step(b) && 0 <= b.pc < |m.code|
  {
    hide Vm.Exec0, Vm.Exec1, Vm.Exec2;
    assert m.Run(1, b) == if b.Running? then m.Run(0, m.Step(b)) else b;
  }
}
