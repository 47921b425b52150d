/** The parser takes everything that is in the grammar, and nothing else: statements and
    programs. */
module ProgramComplete {
  import opened Wrappers
  import opened Decimal
  import opened Ast
  import opened Tokens
  import opened Syntax
  import opened ExprRoundTrip
  import opened StmtRoundTrip
  import opened Grammar
  import opened ParserComplete
  import opened ProgramSound

  lemma AtName(S: Source, c: Cursor, j: nat, name: string)
    requires c.pos <= j && NameAt(S, j, name)
    ensures S.On(At(S, c, j)) && S.Consume(At(S, c, j), TIdent) == At(S, c, j + 1)
    ensures At(S, c, j + 1).previous.text == name
  {
  }

  // ----- statements without blocks -----

  lemma LetParts(S: Source, i: nat, j: nat, s: Stmt)
    requires s.Let? && StmtAt(S, i, j, s)
    ensures i < j <= |S.tokens| && Kind(S, i) == TLet && NameAt(S, i + 1, s.name)
    ensures s.init.None? ==> j == i + 2 && Kind(S, j) != TAssign
    ensures s.init.Some? ==> Kind(S, i + 2) == TAssign && ExprAt(S, i + 3, j, 0, s.init.value) && StopsAt(S, j)
  {
    hide NameAt, ExprAt, StopsAt;
  }

  lemma ReturnParts(S: Source, i: nat, j: nat, s: Stmt)
    requires s.Return? && StmtAt(S, i, j, s)
    ensures i < j <= |S.tokens| && Kind(S, i) == TReturn
    ensures s.result.None? ==> j == i + 1 && (j == |S.tokens| || Kind(S, j) == TRBrace)
    ensures s.result.Some? ==> ExprAt(S, i + 1, j, 0, s.result.value) && StopsAt(S, j)
  {
    hide ExprAt, StopsAt;
  }

  lemma PrintParts(S: Source, i: nat, j: nat, s: Stmt)
    requires s.Print? && StmtAt(S, i, j, s)
    ensures i + 2 < j - 1 < |S.tokens| && Kind(S, i) == TPrint && Kind(S, i + 1) == TLParen
    ensures ExprAt(S, i + 2, j - 1, 0, s.shown) && Kind(S, j - 1) == TRParen
  {
    hide ExprAt;
  }

  lemma ImportParts(S: Source, i: nat, j: nat, s: Stmt)
    requires s.Import? && StmtAt(S, i, j, s)
    ensures i < j <= |S.tokens| && Kind(S, i) == TImport && NameAt(S, i + 1, s.name) && j == i + 2
  {
    hide NameAt;
  }

  lemma LetCase(S: Source, c: Cursor)
    requires S.On(c) && S.Check(c, TLet)
    ensures
      var c1 := S.Consume(S.Advance(c), TIdent);
      S.ParseStatement(c) ==
        if S.Check(c1, TAssign) then
          var (e, c2) := S.ParseExpression(S.Advance(c1));
          (Let(c1.previous.text, Some(e)), c2)
        else (Let(c1.previous.text, None), c1)
  {
    hide Source.ParseStatement, Source.ParseExpression, Source.Consume, Source.Advance, Source.Current;
    S.StatementCases(c);
  }

  lemma LetComplete(S: Source, s: Stmt, c: Cursor, j: nat)
    requires s.Let? && StmtAt(S, c.pos, j, s)
    ensures S.ParseStatement(c) == (s, At(S, c, j))
  {
    hide Source.ParseStatement, Source.ParseExpression, Source.Consume, Source.Advance, Source.Current, At, ExprAt,
         StopsAt, NameAt, StmtAt;
    LetParts(S, c.pos, j, s);
    AtAt(S, c, c.pos, j);
    AtNext(S, c, c.pos);
    LetCase(S, c);
    AtName(S, c, c.pos + 1, s.name);
    if s.init.None? {
      AtEnds(S, c, j);
    } else {
      AtNext(S, c, c.pos + 2);
      AtAt(S, c, c.pos + 3, j);
      ExprComplete(S, s.init.value, At(S, c, c.pos + 3), j);
    }
  }

  lemma ReturnComplete(S: Source, s: Stmt, c: Cursor, j: nat)
    requires s.Return? && StmtAt(S, c.pos, j, s)
    ensures S.ParseStatement(c) == (s, At(S, c, j))
  {
    hide Source.ParseStatement, Source.ParseExpression, Source.Advance, Source.Current, At, ExprAt, StopsAt, StmtAt;
    ReturnParts(S, c.pos, j, s);
    AtAt(S, c, c.pos, j);
    AtNext(S, c, c.pos);
    ReturnCase(S, c);
    AtEnds(S, c, c.pos + 1);
    if s.result.Some? {
      AtAt(S, c, c.pos + 1, j);
      ExprStart(S, c.pos + 1, j, 0, s.result.value);
      ExprComplete(S, s.result.value, At(S, c, c.pos + 1), j);
    }
  }

  lemma PrintComplete(S: Source, s: Stmt, c: Cursor, j: nat)
    requires s.Print? && StmtAt(S, c.pos, j, s)
    ensures S.ParseStatement(c) == (s, At(S, c, j))
  {
    hide Source.ParseStatement, Source.ParseExpression, Source.Consume, Source.Advance, Source.Current, At, ExprAt,
         TokenLevel, StmtAt;
    PrintParts(S, c.pos, j, s);
    AtAt(S, c, c.pos, j);
    AtNext(S, c, c.pos);
    S.PlainStatementCases(c);
    AtNext(S, c, c.pos + 1);
    AtNext(S, c, j - 1);
    AtAt(S, c, c.pos + 2, j - 1);
    ClosingTokens(TRParen);
    ExprComplete(S, s.shown, At(S, c, c.pos + 2), j - 1);
  }

  lemma ExprStmtComplete(S: Source, s: Stmt, c: Cursor, j: nat)
    requires s.ExprStmt? && StmtAt(S, c.pos, j, s)
    ensures S.ParseStatement(c) == (s, At(S, c, j))
  {
    hide Source.ParseStatement, Source.ParseExpression, Source.Advance, At, ExprAt, StopsAt;
    S.PlainStatementCases(c);
    ExprStart(S, c.pos, j, 0, s.expr);
    ExprComplete(S, s.expr, c, j);
  }

  lemma ImportComplete(S: Source, s: Stmt, c: Cursor, j: nat)
    requires s.Import? && StmtAt(S, c.pos, j, s)
    ensures S.ParseStatement(c) == (s, At(S, c, j))
  {
    hide Source.ParseStatement, Source.Consume, Source.Advance, Source.Current, At, NameAt, StmtAt;
    ImportParts(S, c.pos, j, s);
    AtAt(S, c, c.pos, j);
    AtNext(S, c, c.pos);
    S.MoreStatementCases(c);
    AtName(S, c, c.pos + 1, s.name);
  }

  lemma RespondComplete(S: Source, s: Stmt, c: Cursor, j: nat)
    requires s.Respond? && StmtAt(S, c.pos, j, s)
    ensures S.ParseStatement(c) == (s, At(S, c, j))
  {
    hide Source.ParseStatement, Source.ParseExpression, Source.Advance, Source.Current, At, ExprAt, StopsAt;
    AtAt(S, c, c.pos, j);
    AtNext(S, c, c.pos);
    S.PlainStatementCases(c);
    var i := c.pos + 1;
    var k: nat :| i < k < j && ExprAt(S, i, k, 0, s.status) && StopsAt(S, k) && ExprAt(S, k, j, 0, s.reply);
    AtAt(S, c, i, k);
    AtAt(S, c, k, j);
    AtEnds(S, c, k);
    ExprComplete(S, s.status, At(S, c, i), k);
    ExprComplete(S, s.reply, At(S, c, k), j);
  }

  // ----- the parts of functions, classes and servers -----

  lemma TypeNameComplete(S: Source, t: Option<string>, c: Cursor, j: nat)
    requires S.On(c) && TypeAt(S, c.pos, j, t)
    ensures c.pos <= j <= |S.tokens| && S.ParseTypeName(c) == (t, At(S, c, j))
  {
  }

  lemma {:induction false} ParamsComplete(S: Source, ps: seq<Param>, c: Cursor, j: nat)
    requires S.On(c) && ParamsAt(S, c.pos, j, ps) && ps != [] && Kind(S, j) == TRParen
    ensures S.ParseParams(c) == (ps, At(S, c, j))
    decreases ps
  {
    hide Source.ParseParams, Source.ParseTypeName, Source.Consume, Source.Advance, Source.Current, At, NameAt, TypeAt;
    S.ParamsFirst(c);
    var p := ps[0];
    var k: nat :| ParamAt(S, c.pos, k, p) &&
      if |ps| == 1 then k == j else Kind(S, k) == TComma && ParamsAt(S, k + 1, j, ps[1..]);
    AtAt(S, c, c.pos, j);
    AtName(S, c, c.pos, p.name);
    AtEnds(S, c, c.pos + 1);
    TypeNameComplete(S, p.typeName, At(S, c, c.pos + 1), k);
    AtAt(S, c, c.pos + 1, k);
    AtNext(S, c, k);
    if |ps| == 1 {
      assert ps == [p] + [];
    } else {
      AtAt(S, c, k + 1, j);
      assert ps[1..] != [];
      ParamsComplete(S, ps[1..], At(S, c, k + 1), j);
      assert ps == [p] + ps[1..];
    }
  }

  lemma ParamListComplete(S: Source, ps: seq<Param>, c: Cursor, j: nat)
    requires S.On(c) && ParamsAt(S, c.pos, j, ps) && Kind(S, j) == TRParen
    ensures ParamList(S, c) == (ps, At(S, c, j))
  {
    hide Source.ParseParams;
    if ps != [] {
      ParamsComplete(S, ps, c, j);
    }
  }

  lemma MiddlewareComplete(S: Source, m: Option<string>, c: Cursor, j: nat)
    requires S.On(c) && MiddlewareAt(S, c.pos, j, m)
    ensures c.pos <= j <= |S.tokens| && S.ParseMiddleware(c) == (m, At(S, c, j))
  {
    hide Source.Consume, Source.Advance, Source.Current, At, NameAt;
    AtAt(S, c, c.pos, c.pos);
    AtEnds(S, c, c.pos);
    if m.Some? {
      AtNext(S, c, c.pos);
      AtName(S, c, c.pos + 1, m.value);
      AtNext(S, c, c.pos + 2);
    }
  }

  lemma OneInt32(n: int, port: int)
    requires -0x8000_0000 <= port < 0x8000_0000 && (port - n) % 0x1_0000_0000 == 0
    ensures Int32(n) == port
  {
    hide Int32;
    Low32(n);
  }

  lemma PortComplete(S: Source, port: int, c: Cursor, j: nat)
    requires S.On(c) && PortAt(S, c.pos, j, port)
    ensures c.pos <= j <= |S.tokens| && S.ParsePort(c) == (port, At(S, c, j))
  {
    hide Int32, ParseInt, Source.Advance, Source.Current, At;
    AtAt(S, c, c.pos, c.pos);
    AtEnds(S, c, c.pos);
    if Kind(S, c.pos) == TOn {
      AtNext(S, c, c.pos);
      AtEnds(S, c, c.pos + 1);
      if Kind(S, c.pos + 1) == TInt {
        AtNext(S, c, c.pos + 1);
        OneInt32(ParseInt(S.tokens[c.pos + 1].text), port);
      }
    }
  }

  // ----- statements with blocks -----

  lemma {:induction false} BlockComplete(S: Source, b: Stmt, c: Cursor, j: nat)
    requires S.On(c) && BlockAt(S, c.pos, j, b)
    ensures S.ParseBlock(c) == (b, At(S, c, j))
    decreases j - c.pos, 5
  {
    hide Source.ParseBlock, Source.ParseStatements, Source.Consume, Source.Advance, Source.Current, At, StmtsAt;
    BlockStep(S, c);
    AtAt(S, c, c.pos, j);
    AtNext(S, c, c.pos);
    AtNext(S, c, j - 1);
    AtAt(S, c, c.pos + 1, j - 1);
    StmtsComplete(S, b.stmts, At(S, c, c.pos + 1), j - 1);
  }

  lemma StmtsParts(S: Source, i: nat, j: nat, ss: seq<Stmt>) returns (k: nat)
    requires StmtsAt(S, i, j, ss)
    ensures if ss == [] then i == j else i < k <= j && StmtAt(S, i, k, ss[0]) && StmtsAt(S, k, j, ss[1..])
  {
    hide StmtAt;
    k := i;
    if ss != [] {
      k :| i < k <= j && StmtAt(S, i, k, ss[0]) && StmtsAt(S, k, j, ss[1..]);
    }
  }

  lemma StmtStart(S: Source, i: nat, j: nat, s: Stmt)
    requires StmtAt(S, i, j, s)
    ensures i < |S.tokens| && Kind(S, i) != TRBrace
  {
    hide ExprAt, IfAt, HeadAt, RangeAt, FunctionAt, MembersAt, ServerAt, RespondAt;
    if s.ExprStmt? {
      ExprStart(S, i, j, 0, s.expr);
    }
  }

  lemma {:induction false} StmtsComplete(S: Source, ss: seq<Stmt>, c: Cursor, j: nat)
    requires S.On(c) && StmtsAt(S, c.pos, j, ss) && j <= |S.tokens| && (Kind(S, j) == TRBrace || j == |S.tokens|)
    ensures S.ParseStatements(c) == (ss, At(S, c, j))
    decreases j - c.pos, 30
  {
    hide Source.ParseStatements, Source.ParseStatement, Source.Current, At, StmtAt, StmtsAt;
    S.StatementsFirst(c);
    var k := StmtsParts(S, c.pos, j, ss);
    AtAt(S, c, c.pos, j);
    AtEnds(S, c, c.pos);
    if ss != [] {
      StmtStart(S, c.pos, k, ss[0]);
      StmtComplete(S, ss[0], c, k);
      AtEnds(S, c, k);
      AtAt(S, c, k, j);
      StmtsComplete(S, ss[1..], At(S, c, k), j);
      assert ss == [ss[0]] + ss[1..];
    }
  }

  lemma HeadParts(S: Source, i: nat, j: nat, e: Expr, b: Stmt) returns (a: nat)
    requires HeadAt(S, i, j, e, b)
    ensures i < a < j && ExprAt(S, i, a, 0, e) && BlockAt(S, a, j, b) && StopsAt(S, a)
  {
    hide ExprAt, StmtsAt;
    a :| i < a < j && ExprAt(S, i, a, 0, e) && BlockAt(S, a, j, b);
  }

  /** An expression and a block. */
  lemma {:induction false} HeadComplete(S: Source, e: Expr, b: Stmt, c: Cursor, j: nat)
    requires S.On(c) && HeadAt(S, c.pos, j, e, b)
    ensures
      var (e1, c1) := S.ParseExpression(c);
      e1 == e && S.ParseBlock(c1) == (b, At(S, c, j)) && !S.Check(c1, TDotDot)
    decreases j - c.pos, 8
  {
    hide Source.ParseExpression, Source.ParseBlock, Source.Current, At, ExprAt, StopsAt, HeadAt, StmtsAt;
    var a := HeadParts(S, c.pos, j, e, b);
    ExprComplete(S, e, c, a);
    AtEnds(S, c, a);
    AtAt(S, c, a, j);
    BlockComplete(S, b, At(S, c, a), j);
  }

  lemma IfParts(S: Source, i: nat, j: nat, s: Stmt) returns (b: nat)
    requires IfAt(S, i, j, s)
    ensures s.If? && i < b <= j && HeadAt(S, i, b, s.cond, s.thenBranch) && ElseAt(S, b, j, s.elseBranch)
  {
    hide HeadAt, ElseAt;
    b :| i < b <= j && HeadAt(S, i, b, s.cond, s.thenBranch) && ElseAt(S, b, j, s.elseBranch);
  }

  lemma {:induction false} IfComplete(S: Source, s: Stmt, c: Cursor, j: nat)
    requires S.On(c) && IfAt(S, c.pos, j, s) && j <= |S.tokens|
    ensures S.ParseIf(c) == (s, At(S, c, j))
    decreases j - c.pos, 10
  {
    hide Source.ParseExpression, Source.ParseBlock, Source.ParseIf, Source.Current, ElsePart, At, HeadAt, ElseAt, IfAt;
    var b := IfParts(S, c.pos, j, s);
    IfStep(S, c);
    HeadComplete(S, s.cond, s.thenBranch, c, b);
    AtEnds(S, c, b);
    AtAt(S, c, b, j);
    ElseComplete(S, s.elseBranch, At(S, c, b), j);
  }

  lemma {:induction false} ElseComplete(S: Source, f: Option<Stmt>, c: Cursor, j: nat)
    requires S.On(c) && ElseAt(S, c.pos, j, f) && j <= |S.tokens|
    ensures ElsePart(S, c) == (f, At(S, c, j))
    decreases j - c.pos, 9
  {
    hide Source.ParseBlock, Source.ParseIf, Source.Advance, Source.Current, At, IfAt, StmtsAt;
    AtAt(S, c, c.pos, c.pos);
    AtEnds(S, c, c.pos);
    if f.Some? {
      AtNext(S, c, c.pos);
      AtNext(S, c, c.pos + 1);
      if f.value.If? {
        AtAt(S, c, c.pos + 2, j);
        IfComplete(S, f.value, At(S, c, c.pos + 2), j);
      } else {
        AtAt(S, c, c.pos + 1, j);
        BlockComplete(S, f.value, At(S, c, c.pos + 1), j);
      }
    }
  }

  /** `for name in`. */
  lemma ForHeadComplete(S: Source, name: string, c: Cursor)
    requires S.On(c) && ForAt(S, c.pos, name)
    ensures c.pos + 3 <= |S.tokens| && S.Check(c, TFor)
    ensures
      var c1 := S.Consume(S.Advance(c), TIdent);
      c1.previous.text == name && S.Consume(c1, TIn) == At(S, c, c.pos + 3)
  {
    hide Source.Consume, Source.Advance, Source.Current, At, NameAt;
    AtAt(S, c, c.pos, c.pos);
    AtNext(S, c, c.pos);
    AtName(S, c, c.pos + 1, name);
    AtNext(S, c, c.pos + 2);
  }

  lemma RangeParts(S: Source, i: nat, j: nat, start: Expr, end: Expr, body: Stmt) returns (a: nat)
    requires RangeAt(S, i, j, start, end, body)
    ensures i < a < j && ExprAt(S, i, a, 0, start) && Kind(S, a) == TDotDot && HeadAt(S, a + 1, j, end, body)
  {
    hide ExprAt, HeadAt;
    a :| i < a < j && ExprAt(S, i, a, 0, start) && Kind(S, a) == TDotDot && HeadAt(S, a + 1, j, end, body);
  }

  lemma ForParts(S: Source, i: nat, j: nat, s: Stmt)
    requires StmtAt(S, i, j, s)
    ensures s.For? ==> ForAt(S, i, s.name) && RangeAt(S, i + 3, j, s.start, s.end, s.body)
    ensures s.ForIn? ==> ForAt(S, i, s.name) && HeadAt(S, i + 3, j, s.iterable, s.body)
  {
    hide ForAt, RangeAt, HeadAt;
  }

  lemma ForCase(S: Source, c: Cursor)
    requires S.On(c) && S.Check(c, TFor)
    ensures S.ParseStatement(c) == S.ParseFor(S.Advance(c))
  {
    hide Source.ParseStatement, Source.ParseFor, Source.Advance, Source.Current;
    S.StatementCases(c);
  }

  lemma ReturnCase(S: Source, c: Cursor)
    requires S.On(c) && S.Check(c, TReturn)
    ensures S.ParseStatement(c) == S.ParseReturn(S.Advance(c))
  {
    hide Source.ParseStatement, Source.ParseReturn, Source.Advance, Source.Current;
    S.MoreStatementCases(c);
  }

  /** `for name in`, up to the rest of the statement. */
  lemma ForStart(S: Source, name: string, c: Cursor, j: nat)
    requires S.On(c) && ForAt(S, c.pos, name) && c.pos + 3 <= j <= |S.tokens|
    ensures S.On(At(S, c, c.pos + 3)) && At(S, c, c.pos + 3).pos == c.pos + 3
    ensures At(S, At(S, c, c.pos + 3), j) == At(S, c, j)
    ensures
      var (e, c2) := S.ParseExpression(At(S, c, c.pos + 3));
      S.ParseStatement(c) ==
        if S.Check(c2, TDotDot) then
          var (z, c3) := S.ParseExpression(S.Advance(c2));
          var (b, c4) := S.ParseBlock(c3);
          (For(name, e, z, b), c4)
        else
          var (b, c3) := S.ParseBlock(c2);
          (ForIn(name, e, b), c3)
  {
    hide Source.ParseStatement, Source.ParseFor, Source.ParseExpression, Source.ParseBlock, Source.Consume,
         Source.Advance, Source.Current, At, ForAt;
    ForHeadComplete(S, name, c);
    ForCase(S, c);
    ForStep(S, S.Advance(c));
    AtEnds(S, c, c.pos + 3);
    AtAt(S, c, c.pos + 3, j);
  }

  lemma {:induction false} ForInComplete(S: Source, s: Stmt, c: Cursor, j: nat)
    requires S.On(c) && s.ForIn? && StmtAt(S, c.pos, j, s)
    ensures S.ParseStatement(c) == (s, At(S, c, j))
    decreases j - c.pos, 19
  {
    hide Source.ParseStatement, Source.ParseExpression, Source.ParseBlock, Source.Current, At, HeadAt, ForAt, StmtAt;
    ForParts(S, c.pos, j, s);
    ForStart(S, s.name, c, j);
    HeadComplete(S, s.iterable, s.body, At(S, c, c.pos + 3), j);
  }

  lemma {:induction false} ForComplete(S: Source, s: Stmt, c: Cursor, j: nat)
    requires S.On(c) && s.For? && StmtAt(S, c.pos, j, s)
    ensures S.ParseStatement(c) == (s, At(S, c, j))
    decreases j - c.pos, 19
  {
    hide Source.ParseStatement, Source.ParseExpression, Source.ParseBlock, Source.Advance, Source.Current, At, ExprAt,
         HeadAt, RangeAt, ForAt, StmtAt, TokenLevel;
    ForParts(S, c.pos, j, s);
    ForStart(S, s.name, c, j);
    var i := c.pos + 3;
    var a := RangeParts(S, i, j, s.start, s.end, s.body);
    RangeToken();
    AtAt(S, c, i, a);
    ExprComplete(S, s.start, At(S, c, i), a);
    AtNext(S, c, a);
    AtEnds(S, c, a + 1);
    AtAt(S, c, a + 1, j);
    HeadComplete(S, s.end, s.body, At(S, c, a + 1), j);
  }

  lemma FunctionParts(S: Source, i: nat, j: nat, s: Stmt) returns (p: nat, t: nat)
    requires FunctionAt(S, i, j, s)
    ensures s.Function? && NameAt(S, i, s.name) && Kind(S, i + 1) == TLParen && i + 2 <= p
    ensures ParamsAt(S, i + 2, p, s.params) && Kind(S, p) == TRParen && TypeAt(S, p + 1, t, s.returnType)
    ensures i < t <= j <= |S.tokens| && p + 1 <= t && BlockAt(S, t, j, s.body)
  {
    hide NameAt, ParamsAt, TypeAt, BlockAt;
    t :| i < t <= j && SignatureAt(S, i, t, s) && BlockAt(S, t, j, s.body);
    p := ParameterListParts(S, i + 2, t, s.params, s.returnType);
    TypeForward(S, p + 1, t, s.returnType);
  }

  lemma TypeForward(S: Source, i: nat, j: nat, t: Option<string>)
    requires TypeAt(S, i, j, t)
    ensures i <= j
  {
  }

  lemma ParameterListParts(S: Source, i: nat, t: nat, ps: seq<Param>, returnType: Option<string>) returns (p: nat)
    requires ParameterListAt(S, i, t, ps, returnType)
    ensures i <= p && ParamsAt(S, i, p, ps) && Kind(S, p) == TRParen && TypeAt(S, p + 1, t, returnType)
  {
    hide ParamsAt, TypeAt;
    p :| ParamsAt(S, i, p, ps) && Kind(S, p) == TRParen && TypeAt(S, p + 1, t, returnType);
  }

  lemma {:induction false} FunctionComplete(S: Source, s: Stmt, c: Cursor, j: nat)
    requires S.On(c) && FunctionAt(S, c.pos, j, s)
    ensures S.ParseFunction(c) == (s, At(S, c, j))
    decreases j - c.pos, 10
  {
    hide Source.ParseFunction, ParamList, Source.ParseTypeName, Source.ParseBlock, Source.Consume, Source.Advance,
         Source.Current, At, ParamsAt, TypeAt, BlockAt, NameAt, FunctionAt;
    var p, t := FunctionParts(S, c.pos, j, s);
    FunctionStep(S, c);
    AtAt(S, c, c.pos, j);
    AtName(S, c, c.pos, s.name);
    AtNext(S, c, c.pos + 1);
    AtAt(S, c, c.pos + 2, p);
    ParamListComplete(S, s.params, At(S, c, c.pos + 2), p);
    AtNext(S, c, p);
    AtEnds(S, c, p + 1);
    AtAt(S, c, p + 1, t);
    TypeNameComplete(S, s.returnType, At(S, c, p + 1), t);
    AtEnds(S, c, t);
    AtAt(S, c, t, j);
    BlockComplete(S, s.body, At(S, c, t), j);
  }

  lemma MembersParts(S: Source, i: nat, j: nat, ms: seq<Stmt>) returns (k: nat)
    requires MembersAt(S, i, j, ms) && Kind(S, j) == TRBrace
    ensures i <= j
    ensures i == j ==> ms == []
    ensures i < j && Kind(S, i) == TFn ==>
      ms != [] && i < k <= j && FunctionAt(S, i + 1, k, ms[0]) && MembersAt(S, k, j, ms[1..])
    ensures i < j && Kind(S, i) == TIdent && Kind(S, i + 1) == TIdent ==> i + 2 <= j && MembersAt(S, i + 2, j, ms)
    ensures i < j && Kind(S, i) != TFn && !(Kind(S, i) == TIdent && Kind(S, i + 1) == TIdent) ==>
      Kind(S, i) != TRBrace && MembersAt(S, i + 1, j, ms)
  {
    hide FunctionAt;
    k := i;
    if i < j && Kind(S, i) == TFn {
      k :| i < k <= j && MethodAt(S, i, k, ms[0]) && MembersAt(S, k, j, ms[1..]);
    }
  }

  lemma {:induction false} MembersComplete(S: Source, ms: seq<Stmt>, c: Cursor, j: nat)
    requires S.On(c) && MembersAt(S, c.pos, j, ms) && Kind(S, j) == TRBrace
    ensures c.pos <= j < |S.tokens| && S.ParseMembers(c) == (ms, At(S, c, j))
    decreases j - c.pos, 30
  {
    hide Source.ParseMembers, Source.ParseFunction, Source.Advance, Source.Current, At, FunctionAt, MembersAt;
    S.MembersFirst(c);
    var i := c.pos;
    var k := MembersParts(S, i, j, ms);
    AtAt(S, c, i, j);
    AtNext(S, c, i);
    if i < j {
      AtAt(S, c, i + 1, j);
      AtEnds(S, c, i + 1);
      if Kind(S, i) == TFn {
        AtAt(S, c, i + 1, k);
        AtAt(S, c, k, j);
        AtEnds(S, c, k);
        FunctionComplete(S, ms[0], At(S, c, i + 1), k);
        MembersComplete(S, ms[1..], At(S, c, k), j);
        assert ms == [ms[0]] + ms[1..];
      } else if Kind(S, i) == TIdent && Kind(S, i + 1) == TIdent {
        AtNext(S, c, i + 1);
        AtEnds(S, c, i + 2);
        AtAt(S, c, i + 2, j);
        MembersComplete(S, ms, At(S, c, i + 2), j);
      } else {
        MembersComplete(S, ms, At(S, c, i + 1), j);
      }
    }
  }

  lemma ClassParts(S: Source, i: nat, j: nat, s: Stmt)
    requires s.Class? && StmtAt(S, i, j, s)
    ensures Kind(S, i) == TClass && NameAt(S, i + 1, s.name) && Kind(S, i + 2) == TLBrace && i + 3 <= j - 1
    ensures j <= |S.tokens| && MembersAt(S, i + 3, j - 1, s.members) && Kind(S, j - 1) == TRBrace
  {
    hide NameAt, MembersAt;
  }

  lemma {:induction false} ClassComplete(S: Source, s: Stmt, c: Cursor, j: nat)
    requires S.On(c) && s.Class? && StmtAt(S, c.pos, j, s)
    ensures S.ParseStatement(c) == (s, At(S, c, j))
    decreases j - c.pos, 19
  {
    hide Source.ParseStatement, Source.ParseMembers, Source.Consume, Source.Advance, Source.Current, At, NameAt,
         MembersAt, StmtAt;
    ClassParts(S, c.pos, j, s);
    AtAt(S, c, c.pos, j);
    AtNext(S, c, c.pos);
    S.MoreStatementCases(c);
    AtName(S, c, c.pos + 1, s.name);
    AtNext(S, c, c.pos + 2);
    AtEnds(S, c, c.pos + 3);
    AtAt(S, c, c.pos + 3, j - 1);
    MembersComplete(S, s.members, At(S, c, c.pos + 3), j - 1);
    AtNext(S, c, j - 1);
  }

  lemma RoutesParts(S: Source, i: nat, j: nat, rs: seq<Route>) returns (k: nat)
    requires RoutesAt(S, i, j, rs) && Kind(S, j) == TRBrace
    ensures i <= j
    ensures i == j ==> rs == []
    ensures i < j && Kind(S, i) == TRoute ==>
      rs != [] && i < k <= j && RouteAt(S, i, k, rs[0]) && RoutesAt(S, k, j, rs[1..])
    ensures i < j && Kind(S, i) != TRoute ==> Kind(S, i) != TRBrace && RoutesAt(S, i + 1, j, rs)
  {
    hide RouteAt;
    k := i;
    if i < j && Kind(S, i) == TRoute {
      k :| i < k <= j && RouteAt(S, i, k, rs[0]) && RoutesAt(S, k, j, rs[1..]);
    }
  }

  lemma RouteParts(S: Source, i: nat, j: nat, r: Route) returns (a: nat)
    requires RouteAt(S, i, j, r)
    ensures Kind(S, i) == TRoute && NameAt(S, i + 1, r.verb) && WordAt(S, i + 2, TString, r.path)
    ensures i + 3 <= a < j <= |S.tokens| && MiddlewareAt(S, i + 3, a, r.middleware) && BlockAt(S, a, j, r.body)
  {
    hide NameAt, MiddlewareAt, StmtsAt;
    a := TailParts(S, i + 3, j, r);
  }

  lemma TailParts(S: Source, i: nat, j: nat, r: Route) returns (a: nat)
    requires RouteTailAt(S, i, j, r)
    ensures i <= a < j <= |S.tokens| && MiddlewareAt(S, i, a, r.middleware) && BlockAt(S, a, j, r.body)
  {
    hide MiddlewareAt, StmtsAt;
    a :| i <= a < j && MiddlewareAt(S, i, a, r.middleware) && BlockAt(S, a, j, r.body);
  }

  lemma AtString(S: Source, c: Cursor, j: nat, text: string)
    requires c.pos <= j && WordAt(S, j, TString, text)
    ensures S.On(At(S, c, j)) && S.Consume(At(S, c, j), TString) == At(S, c, j + 1)
    ensures At(S, c, j + 1).previous.text == text
  {
  }

  /** One route. */
  lemma {:induction false} RouteComplete(S: Source, r: Route, c: Cursor, j: nat)
    requires S.On(c) && RouteAt(S, c.pos, j, r)
    ensures S.Check(c, TRoute) && c.pos < j <= |S.tokens|
    ensures
      var c1 := S.Consume(S.Advance(c), TIdent);
      var c2 := S.Consume(c1, TString);
      var (m, c3) := S.ParseMiddleware(c2);
      && c1.previous.text == r.verb && c2.previous.text == r.path && m == r.middleware
      && S.ParseBlock(c3) == (r.body, At(S, c, j))
    decreases j - c.pos, 20
  {
    hide Source.ParseMiddleware, Source.ParseBlock, Source.Consume, Source.Advance, Source.Current, At, MiddlewareAt,
         BlockAt, RouteAt, NameAt, WordAt;
    var i := c.pos;
    var a := RouteParts(S, i, j, r);
    AtAt(S, c, i, j);
    AtNext(S, c, i);
    AtName(S, c, i + 1, r.verb);
    AtString(S, c, i + 2, r.path);
    AtEnds(S, c, i + 3);
    AtAt(S, c, i + 3, a);
    MiddlewareComplete(S, r.middleware, At(S, c, i + 3), a);
    AtEnds(S, c, a);
    AtAt(S, c, a, j);
    BlockComplete(S, r.body, At(S, c, a), j);
  }

  lemma {:induction false} RoutesComplete(S: Source, rs: seq<Route>, c: Cursor, j: nat)
    requires S.On(c) && RoutesAt(S, c.pos, j, rs) && Kind(S, j) == TRBrace
    ensures c.pos <= j < |S.tokens| && S.ParseRoutes(c) == (rs, At(S, c, j))
    decreases j - c.pos, 30
  {
    hide Source.ParseRoutes, Source.ParseMiddleware, Source.ParseBlock, Source.Consume, Source.Advance, Source.Current,
         At, RouteAt, RoutesAt;
    S.RoutesFirst(c);
    var i := c.pos;
    var k := RoutesParts(S, i, j, rs);
    AtAt(S, c, i, j);
    AtNext(S, c, i);
    if i < j {
      AtAt(S, c, i + 1, j);
      AtEnds(S, c, i + 1);
      if Kind(S, i) == TRoute {
        AtAt(S, c, k, j);
        AtEnds(S, c, k);
        RouteComplete(S, rs[0], c, k);
        RoutesComplete(S, rs[1..], At(S, c, k), j);
        assert rs == [rs[0]] + rs[1..];
      } else {
        RoutesComplete(S, rs, At(S, c, i + 1), j);
      }
    }
  }

  lemma ServerParts(S: Source, i: nat, j: nat, s: Stmt) returns (p: nat)
    requires s.Server? && StmtAt(S, i, j, s)
    ensures Kind(S, i) == TServer && NameAt(S, i + 1, s.name) && i + 2 <= p < j - 1 && j <= |S.tokens|
    ensures PortAt(S, i + 2, p, s.port) && Kind(S, p) == TLBrace
    ensures RoutesAt(S, p + 1, j - 1, s.routes) && Kind(S, j - 1) == TRBrace
  {
    hide NameAt, PortAt, RoutesAt;
    p := RoutesOnParts(S, i + 2, j, s.port, s.routes);
  }

  lemma RoutesOnParts(S: Source, i: nat, j: nat, port: int, rs: seq<Route>) returns (p: nat)
    requires ServerAt(S, i, j, port, rs)
    ensures i <= p < j - 1 && PortAt(S, i, p, port) && Kind(S, p) == TLBrace
    ensures RoutesAt(S, p + 1, j - 1, rs) && Kind(S, j - 1) == TRBrace
  {
    hide PortAt, RoutesAt;
    p :| i <= p < j - 1 && PortAt(S, i, p, port) && Kind(S, p) == TLBrace
         && RoutesAt(S, p + 1, j - 1, rs) && Kind(S, j - 1) == TRBrace;
  }

  lemma {:induction false} ServerComplete(S: Source, s: Stmt, c: Cursor, j: nat)
    requires S.On(c) && s.Server? && StmtAt(S, c.pos, j, s)
    ensures S.ParseStatement(c) == (s, At(S, c, j))
    decreases j - c.pos, 19
  {
    hide Source.ParseStatement, Source.ParseServer, Source.ParseRoutes, Source.ParsePort, Source.Consume,
         Source.Advance, Source.Current, At, NameAt, PortAt, RoutesAt, StmtAt;
    var i := c.pos;
    var p := ServerParts(S, i, j, s);
    AtAt(S, c, i, j);
    AtNext(S, c, i);
    S.MoreStatementCases(c);
    ServerParse(S, S.Advance(c));
    AtName(S, c, i + 1, s.name);
    AtEnds(S, c, i + 2);
    AtAt(S, c, i + 2, p);
    PortComplete(S, s.port, At(S, c, i + 2), p);
    AtNext(S, c, p);
    AtEnds(S, c, p + 1);
    AtAt(S, c, p + 1, j - 1);
    RoutesComplete(S, s.routes, At(S, c, p + 1), j - 1);
    AtNext(S, c, j - 1);
  }

  lemma BlocksParts(S: Source, i: nat, j: nat, s: Stmt)
    requires StmtAt(S, i, j, s)
    ensures i < j <= |S.tokens| && !s.Block?
    ensures s.If? ==> Kind(S, i) == TIf && IfAt(S, i + 1, j, s)
    ensures s.While? ==> Kind(S, i) == TWhile && HeadAt(S, i + 1, j, s.cond, s.body)
    ensures s.Function? ==> Kind(S, i) == TFn && FunctionAt(S, i + 1, j, s)
  {
    hide IfAt, HeadAt, FunctionAt, RangeAt, ServerAt, RespondAt, MembersAt, ExprAt;
  }

  /** What is a statement is read as that statement. */
  lemma {:induction false} StmtComplete(S: Source, s: Stmt, c: Cursor, j: nat)
    requires S.On(c) && StmtAt(S, c.pos, j, s)
    ensures S.ParseStatement(c) == (s, At(S, c, j))
    decreases j - c.pos, 20, 1
  {
    hide Source.ParseStatement, StmtAt, At, IfAt, FunctionAt, HeadAt;
    BlocksParts(S, c.pos, j, s);
    match s
    case Let(_, _) => LetComplete(S, s, c, j);
    case If(_, _, _) => BlocksComplete(S, s, c, j);
    case While(_, _) => BlocksComplete(S, s, c, j);
    case For(_, _, _, _) => ForComplete(S, s, c, j);
    case ForIn(_, _, _) => ForInComplete(S, s, c, j);
    case Function(_, _, _, _) => BlocksComplete(S, s, c, j);
    case Return(_) => ReturnComplete(S, s, c, j);
    case Print(_) => PrintComplete(S, s, c, j);
    case ExprStmt(_) => ExprStmtComplete(S, s, c, j);
    case Import(_) => ImportComplete(S, s, c, j);
    case Class(_, _) => ClassComplete(S, s, c, j);
    case Server(_, _, _) => ServerComplete(S, s, c, j);
    case Respond(_, _) => RespondComplete(S, s, c, j);
  }

  /** The keyword of a statement is taken. */
  lemma KeywordTaken(S: Source, c: Cursor, j: nat)
    requires c.pos < j <= |S.tokens|
    ensures S.On(c) && S.Current(c).kind == Kind(S, c.pos)
    ensures
      var next := S.Advance(c);
      S.On(next) && next.pos == c.pos + 1 && At(S, next, j) == At(S, c, j)
  {
  }

  lemma {:induction false} BlocksComplete(S: Source, s: Stmt, c: Cursor, j: nat)
    requires S.On(c) && (s.If? || s.While? || s.Function?) && StmtAt(S, c.pos, j, s)
    ensures S.ParseStatement(c) == (s, At(S, c, j))
    decreases j - c.pos, 20, 0
  {
    hide Source.ParseStatement, Source.ParseIf, Source.ParseFunction, Source.ParseExpression, Source.ParseBlock,
         Source.Advance, Source.Current, StmtAt, At, IfAt, FunctionAt, HeadAt;
    BlocksParts(S, c.pos, j, s);
    KeywordTaken(S, c, j);
    BlockCases(S, c);
    if s.If? {
      IfComplete(S, s, S.Advance(c), j);
    } else if s.While? {
      HeadComplete(S, s.cond, s.body, S.Advance(c), j);
    } else {
      FunctionComplete(S, s, S.Advance(c), j);
    }
  }

  lemma BlockCases(S: Source, c: Cursor)
    requires S.On(c)
    ensures S.Check(c, TIf) ==> S.ParseStatement(c) == S.ParseIf(S.Advance(c))
    ensures S.Check(c, TFn) ==> S.ParseStatement(c) == S.ParseFunction(S.Advance(c))
    ensures S.Check(c, TWhile) ==>
      var (e, c1) := S.ParseExpression(S.Advance(c));
      var (b, c2) := S.ParseBlock(c1);
      S.ParseStatement(c) == (While(e, b), c2)
  {
    hide Source.ParseStatement, Source.ParseIf, Source.ParseFunction, Source.ParseExpression, Source.ParseBlock,
         Source.Advance, Source.Current;
    S.StatementCases(c);
  }

  // ----- programs -----

  lemma {:induction false} TopComplete(S: Source, ss: seq<Stmt>, c: Cursor)
    requires S.On(c) && !c.panic && StmtsAt(S, c.pos, |S.tokens|, ss)
    ensures S.ParseTop(c) == (ss, At(S, c, |S.tokens|))
    decreases |S.tokens| - c.pos
  {
    hide Source.ParseTop, Source.ParseStatement, Source.Synchronize, StmtAt, StmtsAt, At;
    S.TopFirst(c);
    var n := |S.tokens|;
    var k := StmtsParts(S, c.pos, n, ss);
    AtAt(S, c, c.pos, n);
    if ss != [] {
      StmtComplete(S, ss[0], c, k);
      AtEnds(S, c, k);
      AtAt(S, c, k, n);
      TopComplete(S, ss[1..], At(S, c, k));
      assert ss == [ss[0]] + ss[1..];
    }
  }

  /** The parser accepts exactly the programs of the grammar, and gives their trees. */
  lemma ParsesExactly(S: Source, ss: seq<Stmt>)
    ensures S.ParseProgram() == Some(ss) <==> IsProgram(S, ss)
  {
    hide Source.ParseTop, StmtsAt, At;
    OnlyPrograms(S);
    if IsProgram(S, ss) {
      TopComplete(S, ss, Source.START);
      AtEnds(S, Source.START, |S.tokens|);
    }
  }

  /** What is no program is refused, and no token list is two programs. */
  lemma Refused(S: Source)
    ensures S.ParseProgram() == None <==> forall ss :: !IsProgram(S, ss)
    ensures forall ss, ts :: IsProgram(S, ss) && IsProgram(S, ts) ==> ss == ts
  {
    hide IsProgram, Source.ParseProgram;
    forall ss ensures S.ParseProgram() == Some(ss) <==> IsProgram(S, ss) {
      ParsesExactly(S, ss);
    }
    if S.ParseProgram().Some? {
      assert IsProgram(S, S.ParseProgram().value);
    }
  }
}
