/** Statements have no separators: one that runs into the next is read as another. */
module Separation {
  import opened Wrappers
  import opened Ast
  import opened Tokens
  import opened Syntax
  import opened Printer
  import opened ExprRoundTrip
  import opened StmtRoundTrip

  /** Grows whenever the parser prolongs an expression. */
  function Weight(e: Expr): nat {
    match e
    case Binary(_, l, r) => 1 + Weight(l) + Weight(r)
    case Unary(_, operand) => 1 + Weight(operand)
    case Call(callee, _) => 1 + Weight(callee)
    case Dot(base, _) => 1 + Weight(base)
    case Index(base, _) => 1 + Weight(base)
    case Assign(target, source) => 1 + Weight(target) + Weight(source)
    case _ => 0
  }

  lemma CallTokenTaken(S: Source, c: Cursor)
    requires S.On(c) && Continues(8, S.Current(c).kind)
    ensures S.Advance(c).pos == c.pos + 1
  {
  }

  /** One round of `CallLoop`. */
  lemma CallLoopRound(S: Source, e: Expr, c: Cursor) returns (e1: Expr, c1: Cursor)
    requires S.On(c) && Continues(8, S.Current(c).kind)
    ensures S.On(c1) && c1.pos > c.pos && S.CallLoop(e, c) == S.CallLoop(e1, c1) && Weight(e1) == Weight(e) + 1
  {
    hide Source.CallLoop, Source.ParseElements, Source.ParseExpression, Source.Consume, Source.Advance, TokenLevel,
         Continues,
         Source.Current, Weight;
    CallLoopStep(S, e, c);
    CallTokens(S.Current(c).kind);
    CallTokenTaken(S, c);
    var k, next := S.Current(c).kind, S.Advance(c);
    if k == TLParen {
      var r := S.ParseElements(next, TRParen);
      e1, c1 := Call(e, r.0), S.Consume(r.1, TRParen);
    } else if k == TDot {
      c1 := S.Consume(next, TIdent);
      e1 := Dot(e, c1.previous.text);
    } else {
      var r := S.ParseExpression(next);
      e1, c1 := Index(e, r.0), S.Consume(r.1, TRBracket);
    }
    WeightOfAccess(e, e1);
  }

  lemma WeightOfAccess(e: Expr, e1: Expr)
    requires (e1.Call? && e1.callee == e) || (e1.Dot? && e1.base == e) || (e1.Index? && e1.base == e)
    ensures Weight(e1) == Weight(e) + 1
  {
  }

  lemma {:induction false} CallLoopGrows(S: Source, e: Expr, c: Cursor)
    requires S.On(c)
    ensures Weight(S.CallLoop(e, c).0) >= Weight(e)
    ensures Continues(8, S.Current(c).kind) ==> Weight(S.CallLoop(e, c).0) > Weight(e)
    decreases S.Left(c)
  {
    hide Source.CallLoop, Source.ParseElements, Source.ParseExpression, Source.Current, Continues;
    if Continues(8, S.Current(c).kind) {
      var e1, c1 := CallLoopRound(S, e, c);
      CallLoopGrows(S, e1, c1);
    } else {
      CallLoopStep(S, e, c);
    }
  }

  lemma {:induction false} BinaryLoopGrows(S: Source, m: nat, e: Expr, c: Cursor)
    requires S.On(c) && 1 <= m <= 6
    ensures Weight(S.BinaryLoop(m, e, c).0) >= Weight(e)
    ensures TokenLevel(S.Current(c).kind) == m ==> Weight(S.BinaryLoop(m, e, c).0) > Weight(e)
    decreases S.Left(c)
  {
    hide Source.BinaryLoop, Source.ParseOperand, TokenLevel;
    BinaryLoopStep(S, m, e, c);
    var op := OperatorAt(m, S.Current(c).kind);
    if op.Some? {
      var (right, c1) := S.ParseOperand(m, S.Advance(c));
      BinaryLoopGrows(S, m, Binary(op.value, e, right), c1);
    }
  }

  /** `e` stands at `c` and the next token prolongs it. */
  ghost predicate Overrun(S: Source, P: Pen, e: Expr, m: nat, c: Cursor) {
    && Readable(S, P, e) && m <= 9 && S.On(c) && Stands(S, c, P.Expr(e, m))
    && !S.AtEnd(Past(c, P.Expr(e, m))) && Continues(m, S.Current(Past(c, P.Expr(e, m))).kind)
  }

  /** A prolonging token is never left alone. */
  lemma {:induction false} Overreads(S: Source, P: Pen, e: Expr, m: nat, c: Cursor)
    requires Overrun(S, P, e, m, c)
    ensures Weight(ParseAt(S, m, c).0) > Weight(e)
    decreases e, Rank(e, m), 1
  {
    hide Source.ParseCall, Source.ParseUnary, Source.ParseBinary, Source.ParseAssignment, Source.CallLoop, Pen.Expr,
         Readable, Past, Stands;
    if m == 0 {
      OverreadsAssignment(S, P, e, c);
    } else if m <= 6 {
      OverreadsBinary(S, P, e, m, c);
    } else if m == 7 {
      OverreadsUnary(S, P, e, c);
    } else {
      ReadsCall(S, P, e, c);
      CallLoopGrows(S, e, Past(c, P.Expr(e, 8)));
    }
  }

  lemma {:induction false} OverreadsUnary(S: Source, P: Pen, e: Expr, c: Cursor)
    requires Overrun(S, P, e, 7, c)
    ensures Weight(S.ParseUnary(c).0) > Weight(e)
    decreases e, Rank(e, 7), 0
  {
    hide Source.ParseUnary, Source.ParseCall, Pen.Expr, Pen.Bare, Readable, Stands, Past, TokenLevel;
    UnaryStep(S, c);
    if e.Unary? {
      UnaryText(S, P, e);
      var t, a := UnOpToken(e.unop), P.Expr(e.operand, 7);
      StandsFirst(S, c, t, a);
      Overreads(S, P, e.operand, 7, Past(c, [t]));
    } else {
      SameText(P, e, 7);
      ExprFirst(P, e, 8);
      StandsHead(S, c, P.Expr(e, 8));
      NoLevelSeven(S.Current(Past(c, P.Expr(e, 8))).kind);
      Overreads(S, P, e, 8, c);
    }
  }

  lemma {:induction false} OverreadsBinary(S: Source, P: Pen, e: Expr, m: nat, c: Cursor)
    requires 1 <= m <= 6 && Overrun(S, P, e, m, c)
    ensures Weight(S.ParseBinary(m, c).0) > Weight(e)
    decreases e, Rank(e, m), 0
  {
    hide Source.ParseBinary, Source.BinaryLoop, Source.ParseOperand, ParseAt, Pen.Expr, Pen.Bare, Readable, Stands,
         Past, TokenLevel, OpToken;
    OperandAt(S, m, c);
    var end := Past(c, P.Expr(e, m));
    if !Continues(m + 1, S.Current(end).kind) {
      ReadsBinary(S, P, e, m, c);
      BinaryLoopGrows(S, m, e, end);
    } else if Level(e) == m {
      BinaryText(S, P, e, m);
      OpTokenLevel(e.op);
      var a, t, b := P.Expr(e.left, m), OpToken(e.op), P.Expr(e.right, m + 1);
      StandsSplit(S, c, a, [t] + b);
      var c1 := Past(c, a);
      StandsFirst(S, c1, t, b);
      var c2 := Past(c1, [t]);
      ReadsBinary(S, P, e.left, m, c);
      Overreads(S, P, e.right, m + 1, c2);
      OperandAt(S, m, c2);
      BinaryLoopStep(S, m, e.left, c1);
      var (right, c3) := S.ParseOperand(m, c2);
      BinaryLoopGrows(S, m, Binary(e.op, e.left, right), c3);
    } else {
      SameText(P, e, m);
      Overreads(S, P, e, m + 1, c);
      var (left, c1) := S.ParseOperand(m, c);
      BinaryLoopGrows(S, m, left, c1);
    }
  }

  lemma {:induction false} OverreadsAssignment(S: Source, P: Pen, e: Expr, c: Cursor)
    requires Overrun(S, P, e, 0, c)
    ensures Weight(S.ParseAssignment(c).0) > Weight(e)
    decreases e, Rank(e, 0), 0
  {
    hide Source.ParseBinary, Source.ParseAssignment, Pen.Expr, Pen.Bare, Readable, Stands, Past;
    AssignmentStep(S, c);
    if e.Assign? {
      AssignText(S, P, e);
      var a, b := P.Expr(e.target, 1), P.Expr(e.source, 0);
      StandsSplit(S, c, a, [ASSIGN] + b);
      StandsFirst(S, Past(c, a), ASSIGN, b);
      Reads(S, P, e.target, 1, c);
      Overreads(S, P, e.source, 0, Past(Past(c, a), [ASSIGN]));
    } else {
      SameText(P, e, 0);
      if Continues(1, S.Current(Past(c, P.Expr(e, 0))).kind) {
        Overreads(S, P, e, 1, c);
      } else {
        Reads(S, P, e, 1, c);
      }
    }
  }

  lemma OverreadsExpr(S: Source, P: Pen, e: Expr, c: Cursor)
    requires Overrun(S, P, e, 0, c)
    ensures S.ParseExpression(c).0 != e
  {
    hide Source.ParseExpression, Source.ParseElements;
    ElementsStep(S, c, TRParen);
    Overreads(S, P, e, 0, c);
  }

  // ----- statements -----

  /** The token in front of which `s` would not end. */
  predicate RunsInto(s: Stmt, k: TokenKind) {
    s == Return(None) || (EndsOpen(s) && Sticky(k))
  }

  /** A statement that runs into the next token is read as another statement. */
  lemma Misreads(S: Source, P: Pen, s: Stmt, c: Cursor)
    requires Writable(S, P, s) && S.On(c) && Stands(S, c, P.Stmt(s))
    requires !Closes(S, Past(c, P.Stmt(s))) && RunsInto(s, S.Current(Past(c, P.Stmt(s))).kind)
    ensures S.ParseStatement(c).0 != s
  {
    hide Source.ParseStatement, Source.ParseExpression, Pen.Expr, Pen.Stmt, Readable, WritableBlock, Stands, Past,
         Source.Current;
    match s
    case Let(name, Some(e)) => MisreadsLet(S, P, name, e, c);
    case Return(result) => MisreadsReturn(S, P, result, c);
    case ExprStmt(e) =>
      ExprStmtText(P, e);
      MisreadsExprStmt(S, P, e, c);
    case Respond(status, reply) => MisreadsRespond(S, P, status, reply, c);
    case _ =>
  }

  lemma ExprStmtText(P: Pen, e: Expr)
    ensures P.Stmt(ExprStmt(e)) == P.Expr(e, 0)
  {
  }

  lemma MisreadsExprStmt(S: Source, P: Pen, e: Expr, c: Cursor)
    requires Overrun(S, P, e, 0, c)
    ensures S.ParseStatement(c).0 != ExprStmt(e)
  {
    hide Source.ParseStatement, Source.ParseExpression, Pen.Expr, Pen.Stmt, Readable, Past;
    S.PlainStatementCases(c);
    ExprFirst(P, e, 0);
    StandsHead(S, c, P.Expr(e, 0));
    OverreadsExpr(S, P, e, c);
  }

  lemma MisreadsReturn(S: Source, P: Pen, result: Option<Expr>, c: Cursor)
    requires S.On(c) && Stands(S, c, P.Stmt(Return(result))) && (result.Some? ==> Readable(S, P, result.value))
    requires
      var c1 := Past(c, P.Stmt(Return(result)));
      !Closes(S, c1) && (result.Some? ==> Continues(0, S.Current(c1).kind))
    ensures S.ParseStatement(c).0 != Return(result)
  {
    hide Source.ParseStatement, Source.ParseExpression, Pen.Expr, Readable, Stands, Past;
    S.MoreStatementCases(c);
    var t := Word(TReturn, "return");
    if result.None? {
      StandsOne(S, c, t);
    } else {
      var a := P.Expr(result.value, 0);
      assert P.Stmt(Return(result)) == [t] + a;
      StandsFirst(S, c, t, a);
      OverreadsExpr(S, P, result.value, Past(c, [t]));
    }
  }

  lemma MisreadsLet(S: Source, P: Pen, name: string, e: Expr, c: Cursor)
    requires S.On(c) && Stands(S, c, P.Stmt(Let(name, Some(e)))) && Readable(S, P, e)
    requires
      var c1 := Past(c, P.Stmt(Let(name, Some(e))));
      !S.AtEnd(c1) && Continues(0, S.Current(c1).kind)
    ensures S.ParseStatement(c).0 != Let(name, Some(e))
  {
    hide Source.ParseStatement, Source.ParseExpression, Pen.Expr, Readable, Stands, Past;
    S.StatementCases(c);
    var l, n, a := Word(TLet, "let"), Name(name), P.Expr(e, 0);
    assert P.Stmt(Let(name, Some(e))) == [l] + ([n] + ([ASSIGN] + a));
    StandsFirst(S, c, l, [n] + ([ASSIGN] + a));
    var c1 := Past(c, [l]);
    StandsFirst(S, c1, n, [ASSIGN] + a);
    var c2 := Past(c1, [n]);
    StandsFirst(S, c2, ASSIGN, a);
    OverreadsExpr(S, P, e, Past(c2, [ASSIGN]));
  }

  lemma MisreadsRespond(S: Source, P: Pen, status: Expr, reply: Expr, c: Cursor)
    requires S.On(c) && Stands(S, c, P.Stmt(Respond(status, reply)))
    requires Readable(S, P, status) && Readable(S, P, reply) && !Sticky(P.Expr(reply, 0)[0].kind)
    requires
      var c1 := Past(c, P.Stmt(Respond(status, reply)));
      !S.AtEnd(c1) && Continues(0, S.Current(c1).kind)
    ensures S.ParseStatement(c).0 != Respond(status, reply)
  {
    hide Source.ParseStatement, Source.ParseExpression, Pen.Expr, Readable, Stands, Past;
    S.PlainStatementCases(c);
    var t, a, b := Word(TRespond, "respond"), P.Expr(status, 0), P.Expr(reply, 0);
    assert P.Stmt(Respond(status, reply)) == [t] + (a + b);
    StandsFirst(S, c, t, a + b);
    var c1 := Past(c, [t]);
    StandsSplit(S, c1, a, b);
    ExprFirst(P, reply, 0);
    StandsHead(S, Past(c1, a), b);
    ExprReads(S, P, status, c1);
    OverreadsExpr(S, P, reply, Past(c1, a));
  }

  /** `s` is read as written in front of `next` only if the two are apart. */
  lemma TopPair(S: Source, P: Pen, s: Stmt, next: Stmt, rest: seq<Token>, c: Cursor)
    requires Writable(S, P, s) && !next.Block? && S.On(c)
    requires Stands(S, c, P.Stmt(s)) && Stands(S, Past(c, P.Stmt(s)), P.Stmt(next) + rest)
    ensures S.ParseStatement(c).0 == s ==> Apart(P, s, next) && S.ParseStatement(c).1 == Past(c, P.Stmt(s))
  {
    hide Source.ParseStatement, Writable, Pen.Stmt, Stands, Past;
    var c1 := Past(c, P.Stmt(s));
    FirstToken(P, next);
    StickyStarts(P.Stmt(next)[0].kind);
    StandsHead(S, c1, P.Stmt(next) + rest);
    assert S.Current(c1) == P.Stmt(next)[0];
    OnToken(S, c1, P.Stmt(next) + rest);
    if Apart(P, s, next) {
      StmtReads(S, P, s, c);
    } else {
      Misreads(S, P, s, c);
    }
  }
}
