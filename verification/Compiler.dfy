/** The bytecode compiler (src/compiler.c): it appends to a growing code array,
    emits jumps with placeholder operands and overwrites these when the target is
    known. Every method is proved to emit what CodeGen says. */
module Compiler {
  import opened Wrappers
  import opened Values
  import opened Bytecode
  import opened Ast
  import opened Semantics
  import opened CodeGen

  /** Overwriting a placeholder touches nothing but the placeholder. */
  lemma Patched(before: seq<byte>, op: byte, skip: nat, after: seq<byte>)
    requires skip <= 0xffff
    ensures
      var code := before + [op, 0xff, 0xff] + after;
      code[|before| + 1 := Hi(skip)][|before| + 2 := Lo(skip)] == before + Forward(op, skip) + after
  {
  }

  lemma PopsOne(n: nat)
    ensures Pops(0) == [] && Pops(n) + [OP_POP] == Pops(n + 1)
  {
  }

  lemma CountOne(all: seq<Local>, n: nat, depth: int)
    requires 0 < n <= |all| && all[n - 1].depth > depth
    ensures CountAbove(all[..n], depth) == 1 + CountAbove(all[..n - 1], depth)
  {
    assert all[..n][..n - 1] == all[..n - 1];
  }

  lemma CountNone(all: seq<Local>, depth: int)
    requires all == [] || all[|all| - 1].depth <= depth
    ensures CountAbove(all, depth) == 0
  {
  }

  /** Unfolding the list of argument codes by its first element. */
  lemma GenExprsFirst(es: seq<Expr>, s: Static)
    requires es != []
    ensures
      var g := GenExpr(es[0], s);
      var h := GenExprs(es[1..], g.s);
      GenExprs(es, s) == Emitted(g.code + h.code, h.s)
  {
    hide GenExpr;
  }

  lemma JoinIfElse(c0: seq<byte>, g: seq<byte>, j: seq<byte>, h: seq<byte>, tail: seq<byte>)
    ensures forall a: seq<byte>, b: seq<byte>, c: seq<byte> :: tail == a + b + c ==>
      c0 + g + j + ([OP_POP] + h) + tail == c0 + (g + j + [OP_POP] + h + a + b + c)
  {
  }

  lemma JoinRound(c0: seq<byte>, j: seq<byte>, h: seq<byte>, next: seq<byte>, back: seq<byte>)
    ensures c0 + j + ([OP_POP] + h + next + back) + [OP_POP] == c0 + (j + [OP_POP] + h + next + back + [OP_POP])
  {
  }

  lemma GenStmtsFirst(ss: seq<Stmt>, depth: nat, s: Static)
    requires ss != []
    ensures
      var g := GenStmt(ss[0], depth, s);
      var h := GenStmts(ss[1..], depth, g.s);
      GenStmts(ss, depth, s) == Emitted(g.code + h.code, h.s)
  {
    hide GenStmt;
  }

  lemma GenStmtsNone(depth: nat, s: Static)
    ensures GenStmts([], depth, s) == Emitted([], s)
  {
  }

  lemma GenExprsNone(s: Static)
    ensures GenExprs([], s) == Emitted([], s)
  {
  }

  class SkyCompiler {
    var code: seq<byte>
    var constants: seq<Value>
    const locals: array<Local>
    var localCount: nat
    var scopeDepth: nat
    var hadError: bool

    ghost predicate Valid()
      reads this
    {
      locals.Length == MAX_LOCALS && localCount <= MAX_LOCALS
    }

    ghost function State(): Static
      requires Valid()
      reads this, locals
    {
      Static(constants, locals[..localCount], hadError)
    }

    /** sky_compiler_init on an empty chunk */
    constructor ()
      ensures Valid() && fresh(locals)
      ensures code == [] && scopeDepth == 0 && State() == Static([], [], false)
    {
      code, constants := [], [];
      locals := new Local[MAX_LOCALS];
      localCount, scopeDepth, hadError := 0, 0, false;
    }

    method EmitByte(b: byte)
      requires Valid()
      modifies this`code
      ensures Valid() && code == old(code) + [b]
    {
      code := code + [b];
    }

    method EmitBytes(b1: byte, b2: byte)
      requires Valid()
      modifies this`code
      ensures Valid() && code == old(code) + [b1, b2]
    {
      EmitByte(b1);
      EmitByte(b2);
    }

    /** `emit_jump`: the returned offset is that of the two placeholder bytes. */
    method EmitJump(op: byte) returns (offset: nat)
      requires Valid()
      modifies this`code
      ensures Valid() && code == old(code) + [op, 0xff, 0xff]
      ensures offset == |old(code)| + 1
    {
      EmitByte(op);
      EmitByte(0xff);
      EmitByte(0xff);
      offset := |code| - 2;
    }

    /** `patch_jump`: the operand becomes the distance from behind it to the end of the code. */
    method PatchJump(offset: nat, ghost before: seq<byte>, ghost op: byte, ghost after: seq<byte>)
      requires Valid()
      requires code == before + [op, 0xff, 0xff] + after && offset == |before| + 1
      modifies this`code, this`hadError
      ensures Valid() && code == before + Forward(op, |after|) + after
      ensures hadError == (old(hadError) || |after| > 0xffff)
    {
      var jump := |code| - offset - 2;
      if jump > 0xffff {
        hadError := true;
        return;
      }
      Patched(before, op, jump, after);
      code := code[offset := Hi(jump)];
      code := code[offset + 1 := Lo(jump)];
    }

    method MakeConstant(v: Value) returns (k: byte)
      requires Valid()
      modifies this`constants, this`hadError
      ensures Valid() && (k, State()) == AddConstant(old(State()), v)
    {
      constants := constants + [v];
      var index := |constants| - 1;
      if index > 255 {
        hadError := true;
        return 0;
      }
      k := index;
    }

    /** An instruction whose operand is a constant's index. */
    method EmitWithConstant(op: byte, v: Value)
      requires Valid()
      modifies this`code, this`constants, this`hadError
      ensures Valid()
      ensures var g := WithConstant(op, v, old(State())); code == old(code) + g.code && State() == g.s
    {
      var k := MakeConstant(v);
      EmitBytes(op, k);
    }

    /** `add_local`; the source's -1 is returned as the byte it is emitted as. */
    method AddLocal(name: string) returns (slot: byte)
      requires Valid()
      modifies this`localCount, this`hadError, locals
      ensures Valid() && (slot, State()) == CodeGen.AddLocal(old(State()), name, scopeDepth)
    {
      if localCount >= MAX_LOCALS {
        hadError := true;
        return 255;
      }
      locals[localCount] := Local(Clip(name), scopeDepth);
      slot := localCount;
      localCount := localCount + 1;
      assert locals[..localCount] == old(locals[..localCount]) + [locals[slot]];
    }

    /** `resolve_local`: a linear search from the innermost variable outwards. */
    method ResolveLocal(name: string) returns (slot: int)
      requires Valid()
      ensures slot == Resolve(State(), name)
    {
      var i := localCount - 1;
      while i >= 0
        invariant -1 <= i < localCount
        invariant FindLast(NamesOf(locals[..localCount]), name) == FindLast(NamesOf(locals[..i + 1]), name)
      {
        NamesOfPrefix(locals[..localCount], i + 1);
        NamesOfPrefix(locals[..localCount], i);
        assert NamesOf(locals[..i + 1])[..i] == NamesOf(locals[..i]) by {
          assert locals[..localCount][..i + 1] == locals[..i + 1];
          assert locals[..localCount][..i] == locals[..i];
        }
        if locals[i].name == name {
          return i;
        }
        i := i - 1;
      }
      slot := -1;
    }

    /** `end_scope` */
    method EndScope(ghost before: seq<byte>, ghost g: Emitted)
      requires Valid() && scopeDepth > 0
      requires code == before + g.code && State() == g.s
      modifies this`code, this`scopeDepth, this`localCount
      ensures Valid() && scopeDepth == old(scopeDepth) - 1
      ensures var h := CodeGen.EndScope(g, scopeDepth); code == before + h.code && State() == h.s
    {
      hide CountAbove, Pops;
      scopeDepth := scopeDepth - 1;
      PopsOne(0);
      ghost var all := g.s.locals;
      ghost var n := CountAbove(all, scopeDepth);
      while localCount > 0 && locals[localCount - 1].depth > scopeDepth
        invariant scopeDepth == old(scopeDepth) - 1
        invariant Valid() && localCount <= |all| && constants == g.s.constants && hadError == g.s.err
        invariant locals[..localCount] == all[..localCount]
        invariant n == |all| - localCount + CountAbove(all[..localCount], scopeDepth)
        invariant code == before + g.code + Pops(|all| - localCount)
      {
        CountOne(all, localCount, scopeDepth);
        PopsOne(|all| - localCount);
        EmitByte(OP_POP);
        localCount := localCount - 1;
      }
      CountNone(all[..localCount], scopeDepth);
      assert before + g.code + Pops(n) == before + (g.code + Pops(n));
    }

    /** Access to a variable by slot or by name. */
    method EmitVariable(local: byte, global: byte, name: string)
      requires Valid()
      modifies this`code, this`constants, this`hadError
      ensures Valid()
      ensures var g := Variable(local, global, name, old(State())); code == old(code) + g.code && State() == g.s
    {
      var slot := ResolveLocal(name);
      if slot >= 0 {
        EmitBytes(local, slot % 256);
      } else {
        EmitWithConstant(global, Str(name));
      }
    }

    /** The expression cases of `compile_node`. */
    method CompileExpr(e: Expr)
      requires Valid()
      modifies this`code, this`constants, this`hadError
      ensures Valid()
      ensures var g := GenExpr(e, old(State())); code == old(code) + g.code && State() == g.s
      decreases e, 1
    {
      hide WithConstant, Variable, BinaryOpcode, UnaryOpcode;
      match e
      case IntLit(n) => EmitWithConstant(OP_CONSTANT, Int(n));
      case FloatLit(f) => EmitWithConstant(OP_CONSTANT, Flt(f));
      case StringLit(t) => EmitWithConstant(OP_CONSTANT, Str(t));
      case BoolLit(b) => EmitByte(if b then OP_TRUE else OP_FALSE);
      case NilLit => EmitByte(OP_NIL);
      case Ident(x) => EmitVariable(OP_GET_LOCAL, OP_GET_GLOBAL, x);
      case Binary(op, l, r) =>
        CompileExpr(l);
        CompileExpr(r);
        EmitByte(BinaryOpcode(op));
      case Unary(op, x) =>
        CompileExpr(x);
        EmitByte(UnaryOpcode(op));
      case Assign(t, x) =>
        CompileExpr(x);
        CompileTarget(t);
      case _ => CompileCompound(e);
    }

    /** Calls, accesses and array literals. */
    method CompileCompound(e: Expr)
      requires Valid() && (e.Call? || e.Dot? || e.Index? || e.ArrayLit?)
      modifies this`code, this`constants, this`hadError
      ensures Valid()
      ensures var g := GenExpr(e, old(State())); code == old(code) + g.code && State() == g.s
      decreases e, 0
    {
      hide WithConstant, Variable, BinaryOpcode, UnaryOpcode;
      if e.Call? {
        CompileExpr(e.callee);
        CompileExprs(e.args);
        EmitBytes(OP_CALL, |e.args| % 256);
      } else if e.Dot? {
        CompileExpr(e.base);
        EmitWithConstant(OP_GET_FIELD, Str(e.field));
      } else if e.Index? {
        CompileExpr(e.base);
        CompileExpr(e.index);
        EmitByte(OP_GET_INDEX);
      } else {
        CompileExprs(e.elements);
        EmitBytes(OP_ARRAY, |e.elements| % 256);
      }
    }

    /** The store of an assignment; a target that is no place emits nothing. */
    method CompileTarget(t: Expr)
      requires Valid()
      modifies this`code, this`constants, this`hadError
      ensures Valid()
      ensures var g := GenTarget(t, old(State())); code == old(code) + g.code && State() == g.s
      decreases t, 2
    {
      if t.Ident? {
        EmitVariable(OP_SET_LOCAL, OP_SET_GLOBAL, t.name);
      } else if t.Dot? {
        CompileExpr(t.base);
        EmitWithConstant(OP_SET_FIELD, Str(t.field));
      } else if t.Index? {
        CompileExpr(t.base);
        CompileExpr(t.index);
        EmitByte(OP_SET_INDEX);
      }
    }

    /** Arguments and array elements, in order. */
    method CompileExprs(es: seq<Expr>)
      requires Valid()
      modifies this`code, this`constants, this`hadError
      ensures Valid()
      ensures var g := GenExprs(es, old(State())); code == old(code) + g.code && State() == g.s
      decreases es, 0
    {
      hide GenExpr, GenExprs;
      ghost var g := GenExprs(es, State());
      ghost var done := [];
      for i := 0 to |es|
        invariant Valid() && code == old(code) + done
        invariant var rest := GenExprs(es[i..], State()); g == Emitted(done + rest.code, rest.s)
      {
        GenExprsFirst(es[i..], State());
        assert es[i..][1..] == es[i + 1..];
        ghost var h := GenExpr(es[i], State());
        CompileExpr(es[i]);
        done := done + h.code;
      }
      GenExprsNone(State());
      assert es[|es|..] == [];
    }

    method CompileOption(e: Option<Expr>)
      requires Valid()
      modifies this`code, this`constants, this`hadError
      ensures Valid()
      ensures var g := GenOption(e, old(State())); code == old(code) + g.code && State() == g.s
    {
      if e.Some? {
        CompileExpr(e.value);
      } else {
        EmitByte(OP_NIL);
      }
    }

    /** The jump back to the start of a loop; its distance is cut to 16 bits. */
    method EmitLoop(loopStart: nat)
      requires Valid() && loopStart <= |code|
      modifies this`code
      ensures Valid() && code == old(code) + Backward(|old(code)| - loopStart + 3)
    {
      var back := |code| - loopStart + 3;
      EmitByte(OP_JUMP_BACK);
      EmitByte(Hi(back));
      EmitByte(Lo(back));
    }

    /** The statement cases of `compile_node`. */
    method CompileStmt(s: Stmt)
      requires Valid()
      modifies this`code, this`constants, this`localCount, this`scopeDepth, this`hadError, locals
      ensures Valid() && scopeDepth == old(scopeDepth)
      ensures var g := GenStmt(s, scopeDepth, old(State())); code == old(code) + g.code && State() == g.s
      decreases s, 1
    {
      hide WithConstant;
      match s
      case Let(name, init) =>
        CompileOption(init);
        if scopeDepth > 0 {
          var _ := AddLocal(name);
        } else {
          EmitWithConstant(OP_SET_GLOBAL, Str(name));
        }
      case If(_, _, _) => CompileIf(s);
      case While(_, _) => CompileWhile(s);
      case For(_, _, _, _) => CompileFor(s);
      case Block(ss) =>
        ghost var before := code;
        scopeDepth := scopeDepth + 1;
        ghost var g := GenStmts(ss, scopeDepth, State());
        CompileStmts(ss);
        EndScope(before, g);
      case Function(name, _, _, _) =>
        EmitByte(OP_NIL);
        if scopeDepth == 0 {
          EmitWithConstant(OP_SET_GLOBAL, Str(name));
        }
      case Return(r) =>
        CompileOption(r);
        EmitByte(OP_RETURN);
      case Print(e) =>
        CompileExpr(e);
        EmitByte(OP_PRINT);
      case ExprStmt(e) =>
        CompileExpr(e);
        EmitByte(OP_POP);
      case _ =>  // not implemented by the compiler
    }

    method CompileIf(s: Stmt)
      requires Valid() && s.If?
      modifies this`code, this`constants, this`localCount, this`scopeDepth, this`hadError, locals
      ensures Valid() && scopeDepth == old(scopeDepth)
      ensures var g := GenStmt(s, scopeDepth, old(State())); code == old(code) + g.code && State() == g.s
      decreases s, 0
    {
      hide GenExpr, GenStmt, Forward;
      ghost var s0, c0 := State(), code;
      ghost var g := GenExpr(s.cond, s0);
      CompileExpr(s.cond);
      ghost var c1 := code;
      var jumpFalse := EmitJump(OP_JUMP_IF_FALSE);
      EmitByte(OP_POP);
      ghost var h := GenStmt(s.thenBranch, scopeDepth, State());
      CompileStmt(s.thenBranch);
      ghost var thenCode := [OP_POP] + h.code;
      assert code == c1 + [OP_JUMP_IF_FALSE, 0xff, 0xff] + thenCode;
      if s.elseBranch.Some? {
        FinishIfElse(s, jumpFalse, c0, c1, s0);
      } else {
        PatchJump(jumpFalse, c1, OP_JUMP_IF_FALSE, thenCode);
        EmitByte(OP_POP);
        GenIfThen(s, scopeDepth, s0);
        assert code == c0 + (g.code + Forward(OP_JUMP_IF_FALSE, |thenCode|) + [OP_POP] + h.code + [OP_POP]);
      }
    }

    /** The jump over the `else` branch, the patch of the first jump, and the branch. */
    method FinishIfElse(s: Stmt, jumpFalse: nat, ghost c0: seq<byte>, ghost c1: seq<byte>, ghost s0: Static)
      requires Valid() && s.If? && s.elseBranch.Some?
      requires c1 == c0 + GenExpr(s.cond, s0).code && jumpFalse == |c1| + 1
      requires
        var h := GenStmt(s.thenBranch, scopeDepth, GenExpr(s.cond, s0).s);
        code == c1 + [OP_JUMP_IF_FALSE, 0xff, 0xff] + ([OP_POP] + h.code) && State() == h.s
      modifies this`code, this`constants, this`localCount, this`scopeDepth, this`hadError, locals
      ensures Valid() && scopeDepth == old(scopeDepth)
      ensures var g := GenStmt(s, scopeDepth, s0); code == c0 + g.code && State() == g.s
      decreases s, 0, 0
    {
      hide GenExpr, GenStmt, Forward;
      ghost var g := GenExpr(s.cond, s0);
      ghost var h := GenStmt(s.thenBranch, scopeDepth, g.s);
      ghost var thenCode := [OP_POP] + h.code;
      var jumpEnd := EmitJump(OP_JUMP);
      ghost var skipped := thenCode + [OP_JUMP, 0xff, 0xff];
      assert code == c1 + [OP_JUMP_IF_FALSE, 0xff, 0xff] + skipped;
      PatchJump(jumpFalse, c1, OP_JUMP_IF_FALSE, skipped);
      ghost var c2 := c1 + Forward(OP_JUMP_IF_FALSE, |skipped|) + thenCode;
      assert code == c2 + [OP_JUMP, 0xff, 0xff];
      CompileElse(s.elseBranch.value, jumpEnd, c2);
      GenIfElse(s, scopeDepth, s0);
      JoinIfElse(c0, g.code, Forward(OP_JUMP_IF_FALSE, |skipped|), h.code, code[|c2|..]);
    }

    /** The branch behind the jump at the end of `before`, which is patched to lead past it. */
    method CompileElse(e: Stmt, jumpEnd: nat, ghost before: seq<byte>)
      requires Valid() && code == before + [OP_JUMP, 0xff, 0xff] && jumpEnd == |before| + 1
      modifies this`code, this`constants, this`localCount, this`scopeDepth, this`hadError, locals
      ensures Valid() && scopeDepth == old(scopeDepth)
      ensures
        var w := GenStmt(e, scopeDepth, old(State()));
        && code == before + (Forward(OP_JUMP, 1 + |w.code|) + [OP_POP] + w.code)
        && State() == TooFar(w.s, 1 + |w.code| > 0xffff)
      decreases e, 2
    {
      hide GenStmt, Forward;
      EmitByte(OP_POP);
      ghost var w := GenStmt(e, scopeDepth, State());
      CompileStmt(e);
      ghost var elseCode := [OP_POP] + w.code;
      assert code == before + [OP_JUMP, 0xff, 0xff] + elseCode;
      PatchJump(jumpEnd, before, OP_JUMP, elseCode);
    }

    method CompileWhile(s: Stmt)
      requires Valid() && s.While?
      modifies this`code, this`constants, this`localCount, this`scopeDepth, this`hadError, locals
      ensures Valid() && scopeDepth == old(scopeDepth)
      ensures var g := GenStmt(s, scopeDepth, old(State())); code == old(code) + g.code && State() == g.s
      decreases s, 0
    {
      hide GenExpr, GenBody, Forward, Backward;
      var loopStart := |code|;
      ghost var g := GenExpr(s.cond, State());
      CompileExpr(s.cond);
      ghost var c1 := code;
      var jumpFalse := EmitJump(OP_JUMP_IF_FALSE);
      EmitByte(OP_POP);
      ghost var h := GenBody(s.body, scopeDepth, State());
      CompileBody(s.body);
      EmitLoop(loopStart);
      ghost var skipped := [OP_POP] + h.code + Backward(|g.code| + 4 + |h.code| + 3);
      assert code == c1 + [OP_JUMP_IF_FALSE, 0xff, 0xff] + skipped;
      PatchJump(jumpFalse, c1, OP_JUMP_IF_FALSE, skipped);
      EmitByte(OP_POP);
      assert code == old(code) + (g.code + Forward(OP_JUMP_IF_FALSE, |skipped|) + [OP_POP] + h.code
                                  + Backward(|g.code| + 4 + |h.code| + 3) + [OP_POP]);
    }

    method CompileFor(s: Stmt)
      requires Valid() && s.For?
      modifies this`code, this`constants, this`localCount, this`scopeDepth, this`hadError, locals
      ensures Valid() && scopeDepth == old(scopeDepth)
      ensures var g := GenStmt(s, scopeDepth, old(State())); code == old(code) + g.code && State() == g.s
      decreases s, 0
    {
      hide GenExpr, GenForLoop;
      ghost var before := code;
      ghost var g := GenExpr(s.start, State());
      scopeDepth := scopeDepth + 1;
      CompileExpr(s.start);
      var slot := AddLocal(s.name);
      ghost var h := GenForLoop(s.end, s.body, slot, scopeDepth, State());
      CompileForLoop(s.end, s.body, slot);
      assert code == before + (g.code + h.code);
      EndScope(before, Emitted(g.code + h.code, h.s));
    }

    /** The comparison of the loop variable with the end expression. */
    method CompileLoopTest(end: Expr, slot: byte)
      requires Valid()
      modifies this`code, this`constants, this`hadError
      ensures Valid()
      ensures var g := GenExpr(end, old(State()));
        code == old(code) + ([OP_GET_LOCAL, slot] + g.code + [OP_LESS]) && State() == g.s
      decreases end, 2
    {
      EmitBytes(OP_GET_LOCAL, slot);
      CompileExpr(end);
      EmitByte(OP_LESS);
    }

    /** The increment of the loop variable. */
    method EmitIncrement(slot: byte)
      requires Valid()
      modifies this`code, this`constants, this`hadError
      ensures Valid()
      ensures var g := Increment(slot, old(State())); code == old(code) + g.code && State() == g.s
    {
      hide WithConstant;
      EmitBytes(OP_GET_LOCAL, slot);
      EmitWithConstant(OP_CONSTANT, Int(1));
      EmitByte(OP_ADD);
      EmitBytes(OP_SET_LOCAL, slot);
      EmitByte(OP_POP);
    }

    /** The rest of a loop whose test starts at `loopStart` and ends the code so far. */
    method CompileRound(b: Stmt, slot: byte, loopStart: nat)
      requires Valid() && loopStart <= |code|
      modifies this`code, this`constants, this`localCount, this`scopeDepth, this`hadError, locals
      ensures Valid() && scopeDepth == old(scopeDepth)
      ensures
        var g := GenRound(b, slot, scopeDepth, |old(code)| - loopStart, old(State()));
        code == old(code) + g.code && State() == g.s
      decreases b, 4
    {
      hide GenBody, Forward, Backward, WithConstant, Increment;
      ghost var s0, c0 := State(), code;
      var jumpFalse := EmitJump(OP_JUMP_IF_FALSE);
      EmitByte(OP_POP);
      ghost var h := GenBody(b, scopeDepth, s0);
      CompileBody(b);
      ghost var next := Increment(slot, h.s);
      EmitIncrement(slot);
      ghost var body := [OP_POP] + h.code + next.code;
      assert code == c0 + [OP_JUMP_IF_FALSE, 0xff, 0xff] + body;
      EmitLoop(loopStart);
      ghost var back := Backward(|c0| - loopStart + 4 + |h.code| + |next.code| + 3);
      assert code == c0 + [OP_JUMP_IF_FALSE, 0xff, 0xff] + (body + back);
      PatchJump(jumpFalse, c0, OP_JUMP_IF_FALSE, body + back);
      EmitByte(OP_POP);
      JoinRound(c0, Forward(OP_JUMP_IF_FALSE, |body + back|), h.code, next.code, back);
    }

    method CompileForLoop(end: Expr, b: Stmt, slot: byte)
      requires Valid()
      modifies this`code, this`constants, this`localCount, this`scopeDepth, this`hadError, locals
      ensures Valid() && scopeDepth == old(scopeDepth)
      ensures var g := GenForLoop(end, b, slot, scopeDepth, old(State())); code == old(code) + g.code && State() == g.s
      decreases b, 5
    {
      hide GenExpr, GenRound;
      var loopStart := |code|;
      CompileLoopTest(end, slot);
      CompileRound(b, slot, loopStart);
    }

    /** `compile_block` */
    method CompileBody(b: Stmt)
      requires Valid()
      modifies this`code, this`constants, this`localCount, this`scopeDepth, this`hadError, locals
      ensures Valid() && scopeDepth == old(scopeDepth)
      ensures var g := GenBody(b, scopeDepth, old(State())); code == old(code) + g.code && State() == g.s
      decreases b, 2
    {
      if b.Block? {
        CompileStmts(b.stmts);
      } else {
        CompileStmt(b);
      }
    }

    method CompileStmts(ss: seq<Stmt>)
      requires Valid()
      modifies this`code, this`constants, this`localCount, this`scopeDepth, this`hadError, locals
      ensures Valid() && scopeDepth == old(scopeDepth)
      ensures var g := GenStmts(ss, scopeDepth, old(State())); code == old(code) + g.code && State() == g.s
      decreases ss, 0
    {
      hide GenStmt, GenStmts;
      ghost var g := GenStmts(ss, scopeDepth, State());
      ghost var done := [];
      for i := 0 to |ss|
        invariant Valid() && scopeDepth == old(scopeDepth) && code == old(code) + done
        invariant var rest := GenStmts(ss[i..], scopeDepth, State()); g == Emitted(done + rest.code, rest.s)
      {
        GenStmtsFirst(ss[i..], scopeDepth, State());
        assert ss[i..][1..] == ss[i + 1..];
        ghost var h := GenStmt(ss[i], scopeDepth, State());
        CompileStmt(ss[i]);
        done := done + h.code;
      }
      GenStmtsNone(scopeDepth, State());
      assert ss[|ss|..] == [];
    }

    /** `sky_compiler_compile` on a fresh compiler: true unless an error was reported. */
    method Compile(program: seq<Stmt>) returns (ok: bool)
      requires Valid() && code == [] && scopeDepth == 0 && State() == Static([], [], false)
      modifies this`code, this`constants, this`localCount, this`scopeDepth, this`hadError, locals
      ensures Valid() && scopeDepth == 0
      ensures var g := GenProgram(program); ok == !g.s.err && code == g.code && State() == g.s
    {
      CompileStmts(program);
      ok := !hadError;
    }
  }

  lemma NamesOfPrefix(locals: seq<Local>, k: nat)
    requires k <= |locals|
    ensures NamesOf(locals[..k]) == NamesOf(locals)[..k]
  {
  }
}
