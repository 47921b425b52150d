/** The parser takes nothing that is not in the grammar: statements and whole programs. */
module ProgramSound {
  import opened Wrappers
  import opened Decimal
  import opened Ast
  import opened Tokens
  import opened Syntax
  import opened StmtRoundTrip
  import opened Grammar
  import opened ParserSound

  // ----- statements without blocks -----

  lemma LetSound(S: Source, c: Cursor)
    requires S.On(c) && S.Check(c, TLet)
    ensures
      var (s, c1) := S.ParseLet(S.Advance(c));
      S.On(c1) && Kept(c, c1) && (Fine(c1) ==> StmtAt(S, c.pos, c1.pos, s))
  {
    hide Source.ParseExpression, Source.Consume, Source.Advance, ExprAt, StopsAt, NameAt;
    Advances(S, c);
    var next := S.Advance(c);
    TakesName(S, next);
    var c1 := S.Consume(next, TIdent);
    Advances(S, c1);
    if S.Check(c1, TAssign) {
      OpenSound(S, S.Advance(c1));
    }
  }

  lemma ReturnSound(S: Source, c: Cursor)
    requires S.On(c) && S.Check(c, TReturn)
    ensures
      var (s, c1) := S.ParseReturn(S.Advance(c));
      S.On(c1) && Kept(c, c1) && (Fine(c1) ==> StmtAt(S, c.pos, c1.pos, s))
  {
    hide Source.ParseExpression, Source.Advance, ExprAt, StopsAt;
    Advances(S, c);
    var next := S.Advance(c);
    Advances(S, next);
    if !S.Check(next, TRBrace) && !S.AtEnd(next) {
      OpenSound(S, next);
    }
  }

  lemma RulePrint(S: Source, i: nat, j: nat, e: Expr)
    requires Kind(S, i) == TPrint && Kind(S, i + 1) == TLParen && ExprAt(S, i + 2, j, 0, e) && Kind(S, j) == TRParen
    ensures StmtAt(S, i, j + 1, Print(e))
  {
    hide ExprAt;
  }

  lemma PrintSound(S: Source, c: Cursor)
    requires S.On(c) && S.Check(c, TPrint)
    ensures
      var (e, c1) := S.ParseExpression(S.Consume(S.Advance(c), TLParen));
      var c2 := S.Consume(c1, TRParen);
      S.On(c2) && Kept(c, c2) && (Fine(c2) ==> StmtAt(S, c.pos, c2.pos, Print(e)))
  {
    hide Source.ParseExpression, Source.Consume, Source.Advance, ExprAt, StmtAt;
    Advances(S, c);
    Takes(S, S.Advance(c), TLParen);
    var c0 := S.Consume(S.Advance(c), TLParen);
    ExprSound(S, c0);
    var (e, c1) := S.ParseExpression(c0);
    Takes(S, c1, TRParen);
    if Fine(S.Consume(c1, TRParen)) {
      RulePrint(S, c.pos, c1.pos, e);
    }
  }

  lemma ImportSound(S: Source, c: Cursor)
    requires S.On(c) && S.Check(c, TImport)
    ensures
      var c1 := S.Consume(S.Advance(c), TIdent);
      S.On(c1) && Kept(c, c1) && (Fine(c1) ==> StmtAt(S, c.pos, c1.pos, Import(c1.previous.text)))
  {
    hide Source.Consume, Source.Advance, NameAt;
    Advances(S, c);
    TakesName(S, S.Advance(c));
  }

  lemma RespondSound(S: Source, c: Cursor)
    requires S.On(c) && S.Check(c, TRespond)
    ensures
      var (status, c1) := S.ParseExpression(S.Advance(c));
      var (reply, c2) := S.ParseExpression(c1);
      S.On(c2) && Kept(c, c2) && (Fine(c2) ==> StmtAt(S, c.pos, c2.pos, Respond(status, reply)))
  {
    hide Source.ParseExpression, Source.Advance, ExprAt, StopsAt;
    Advances(S, c);
    OpenSound(S, S.Advance(c));
    OpenSound(S, S.ParseExpression(S.Advance(c)).1);
  }

  lemma ExprStmtSound(S: Source, c: Cursor)
    requires S.On(c)
    ensures
      var (e, c1) := S.ParseExpression(c);
      S.On(c1) && Kept(c, c1) && (Fine(c1) ==> StmtAt(S, c.pos, c1.pos, ExprStmt(e)))
  {
    hide Source.ParseExpression, ExprAt, StopsAt;
    OpenSound(S, c);
  }

  // ----- the parts of functions, classes and servers -----

  lemma TypeNameSound(S: Source, c: Cursor)
    requires S.On(c)
    ensures
      var (t, c1) := S.ParseTypeName(c);
      S.On(c1) && Kept(c, c1) && TypeAt(S, c.pos, c1.pos, t)
  {
  }

  lemma {:induction false} ParamsSound(S: Source, c: Cursor)
    requires S.On(c)
    ensures
      var (ps, c1) := S.ParseParams(c);
      S.On(c1) && Kept(c, c1) && ps != [] && (Fine(c1) ==> ParamsAt(S, c.pos, c1.pos, ps))
    decreases S.Left(c)
  {
    hide Source.ParseParams, Source.ParseTypeName, Source.Consume, Source.Advance, ParamsAt, TypeAt, NameAt;
    S.ParamsFirst(c);
    TakesName(S, c);
    var c1 := S.Consume(c, TIdent);
    TypeNameSound(S, c1);
    var (t, c2) := S.ParseTypeName(c1);
    var p := Param(c1.previous.text, t);
    if S.Check(c2, TComma) {
      Advances(S, c2);
      ParamsSound(S, S.Advance(c2));
      var (ps, c3) := S.ParseParams(S.Advance(c2));
      if Fine(c3) {
        RuleParams(S, c.pos, c2.pos, c3.pos, p, ps);
      }
    } else if Fine(c2) {
      RuleParams(S, c.pos, c2.pos, c2.pos, p, []);
    }
  }

  lemma RuleParams(S: Source, i: nat, k: nat, j: nat, p: Param, ps: seq<Param>)
    requires ParamAt(S, i, k, p)
    requires if ps == [] then j == k else Kind(S, k) == TComma && ParamsAt(S, k + 1, j, ps)
    ensures ParamsAt(S, i, j, [p] + ps)
  {
    hide ParamAt;
    assert ([p] + ps)[1..] == ps && ([p] + ps)[0] == p;
    assert ParamAt(S, i, k, ([p] + ps)[0]);
  }

  lemma {:induction false} ParamListSound(S: Source, c: Cursor)
    requires S.On(c)
    ensures
      var (ps, c1) := ParamList(S, c);
      S.On(c1) && Kept(c, c1) && (Fine(c1) ==> ParamsAt(S, c.pos, c1.pos, ps))
  {
    hide Source.ParseParams;
    if !S.Check(c, TRParen) {
      ParamsSound(S, c);
    }
  }

  lemma MiddlewareSound(S: Source, c: Cursor)
    requires S.On(c)
    ensures
      var (m, c1) := S.ParseMiddleware(c);
      S.On(c1) && Kept(c, c1) && (Fine(c1) ==> MiddlewareAt(S, c.pos, c1.pos, m))
  {
    hide Source.Consume, Source.Advance, NameAt;
    if S.Check(c, TLBracket) {
      Advances(S, c);
      TakesName(S, S.Advance(c));
      Takes(S, S.Consume(S.Advance(c), TIdent), TRBracket);
    }
  }

  lemma Low32(n: int)
    ensures -0x8000_0000 <= Int32(n) < 0x8000_0000 && (Int32(n) - n) % 0x1_0000_0000 == 0
  {
    var q, m := n / 0x1_0000_0000, n % 0x1_0000_0000;
    assert m - n == -q * 0x1_0000_0000;
  }

  lemma PortSound(S: Source, c: Cursor)
    requires S.On(c)
    ensures
      var (port, c1) := S.ParsePort(c);
      S.On(c1) && Kept(c, c1) && PortAt(S, c.pos, c1.pos, port)
  {
    hide Int32, ParseInt, Source.Advance;
    Advances(S, c);
    if S.Check(c, TOn) {
      var c1 := S.Advance(c);
      Advances(S, c1);
      Low32(ParseInt(S.Current(c1).text));
    }
  }

  // ----- statements with blocks -----

  lemma BlockStep(S: Source, c: Cursor)
    requires S.On(c)
    ensures S.ParseBlock(c) ==
      var (ss, c1) := S.ParseStatements(S.Consume(c, TLBrace));
      (Block(ss), S.Consume(c1, TRBrace))
  {
    hide Source.ParseStatements, Source.Consume;
  }

  lemma {:induction false} BlockSound(S: Source, c: Cursor)
    requires S.On(c)
    ensures
      var (b, c1) := S.ParseBlock(c);
      S.On(c1) && Kept(c, c1) && (Fine(c1) ==> BlockAt(S, c.pos, c1.pos, b))
    decreases S.Left(c), 22
  {
    hide Source.ParseBlock, Source.ParseStatements, Source.Consume, StmtsAt;
    BlockStep(S, c);
    Takes(S, c, TLBrace);
    StmtsSound(S, S.Consume(c, TLBrace));
    Takes(S, S.ParseStatements(S.Consume(c, TLBrace)).1, TRBrace);
  }

  lemma RuleStmts(S: Source, i: nat, k: nat, j: nat, s: Stmt, ss: seq<Stmt>)
    requires StmtAt(S, i, k, s) && StmtsAt(S, k, j, ss)
    ensures StmtsAt(S, i, j, [s] + ss)
  {
    hide StmtAt;
    assert ([s] + ss)[1..] == ss;
  }

  lemma {:induction false} StmtsSound(S: Source, c: Cursor)
    requires S.On(c)
    ensures
      var (ss, c1) := S.ParseStatements(c);
      S.On(c1) && c.pos <= c1.pos && Kept(c, c1) && (Fine(c1) ==> StmtsAt(S, c.pos, c1.pos, ss))
    decreases S.Left(c), 21
  {
    hide Source.ParseStatements, Source.ParseStatement, StmtAt;
    S.StatementsFirst(c);
    if !S.Check(c, TRBrace) && !S.AtEnd(c) {
      hide StmtsAt;
      StmtSound(S, c);
      var (s, c1) := S.ParseStatement(c);
      StmtsSound(S, c1);
      var (ss, c2) := S.ParseStatements(c1);
      if Fine(c2) {
        RuleStmts(S, c.pos, c1.pos, c2.pos, s, ss);
      }
    }
  }

  /** An expression and a block. */
  lemma {:induction false} HeadSound(S: Source, c: Cursor)
    requires S.On(c)
    ensures
      var (e, c1) := S.ParseExpression(c);
      var (b, c2) := S.ParseBlock(c1);
      S.On(c2) && c.pos <= c1.pos && Kept(c, c2) && (Fine(c2) ==> HeadAt(S, c.pos, c2.pos, e, b))
    decreases S.Left(c), 23
  {
    hide Source.ParseExpression, Source.ParseBlock, ExprAt, BlockAt, StopsAt;
    OpenSound(S, c);
    BlockSound(S, S.ParseExpression(c).1);
  }

  lemma {:induction false} IfSound(S: Source, c: Cursor)
    requires S.On(c)
    ensures
      var (s, c1) := S.ParseIf(c);
      S.On(c1) && Kept(c, c1) && (Fine(c1) ==> IfAt(S, c.pos, c1.pos, s))
    decreases S.Left(c), 25
  {
    hide Source.ParseExpression, Source.ParseBlock, Source.ParseIf, ElsePart, HeadAt, ElseAt;
    IfStep(S, c);
    HeadSound(S, c);
    ElseSound(S, S.ParseBlock(S.ParseExpression(c).1).1);
  }

  lemma RuleElse(S: Source, i: nat, j: nat, f: Stmt)
    requires Kind(S, i) == TElse
    requires (f.If? && Kind(S, i + 1) == TIf && IfAt(S, i + 2, j, f)) || (f.Block? && BlockAt(S, i + 1, j, f))
    ensures ElseAt(S, i, j, Some(f))
  {
    hide IfAt, BlockAt;
  }

  lemma IfOrBlock(S: Source, c: Cursor)
    requires S.On(c)
    ensures S.ParseIf(c).0.If? && S.ParseBlock(c).0.Block?
  {
    hide Source.ParseExpression, Source.ParseBlock, ElsePart, Source.ParseIf;
    IfStep(S, c);
    BlockStep(S, c);
  }

  lemma {:induction false} ElseSound(S: Source, c: Cursor)
    requires S.On(c)
    ensures
      var (f, c1) := ElsePart(S, c);
      S.On(c1) && c.pos <= c1.pos && Kept(c, c1) && (Fine(c1) ==> ElseAt(S, c.pos, c1.pos, f))
    decreases S.Left(c), 24
  {
    hide Source.ParseBlock, Source.ParseIf, Source.Advance, IfAt, BlockAt;
    Advances(S, c);
    if S.Check(c, TElse) {
      hide ElseAt;
      var c1 := S.Advance(c);
      Advances(S, c1);
      var next := if S.Check(c1, TIf) then S.Advance(c1) else c1;
      IfOrBlock(S, next);
      if S.Check(c1, TIf) {
        IfSound(S, next);
      } else {
        BlockSound(S, next);
      }
      var (f, c2) := ElsePart(S, c);
      if Fine(c2) {
        RuleElse(S, c.pos, c2.pos, f.value);
      }
    }
  }

  lemma ForStep(S: Source, c: Cursor)
    requires S.On(c)
    ensures
      var c1 := S.Consume(c, TIdent);
      var (e, c2) := S.ParseExpression(S.Consume(c1, TIn));
      S.ParseFor(c) ==
        if S.Check(c2, TDotDot) then
          var (z, c3) := S.ParseExpression(S.Advance(c2));
          var (b, c4) := S.ParseBlock(c3);
          (For(c1.previous.text, e, z, b), c4)
        else
          var (b, c3) := S.ParseBlock(c2);
          (ForIn(c1.previous.text, e, b), c3)
  {
    hide Source.ParseExpression, Source.ParseBlock, Source.Consume, Source.Advance;
  }

  lemma RuleForIn(S: Source, i: nat, j: nat, name: string, e: Expr, body: Stmt)
    requires ForAt(S, i, name) && HeadAt(S, i + 3, j, e, body)
    ensures StmtAt(S, i, j, ForIn(name, e, body))
  {
    hide ForAt, HeadAt;
  }

  lemma RuleFor(S: Source, i: nat, k: nat, j: nat, name: string, start: Expr, end: Expr, body: Stmt)
    requires ForAt(S, i, name) && ExprAt(S, i + 3, k, 0, start) && Kind(S, k) == TDotDot
    requires HeadAt(S, k + 1, j, end, body)
    ensures StmtAt(S, i, j, For(name, start, end, body))
  {
    hide ForAt, HeadAt, ExprAt, RangeAt;
    RuleRange(S, i + 3, k, j, start, end, body);
  }

  lemma RuleRange(S: Source, i: nat, k: nat, j: nat, start: Expr, end: Expr, body: Stmt)
    requires ExprAt(S, i, k, 0, start) && Kind(S, k) == TDotDot && HeadAt(S, k + 1, j, end, body)
    ensures RangeAt(S, i, j, start, end, body)
  {
    hide HeadAt, ExprAt;
  }

  /** `for name in`. */
  lemma ForHead(S: Source, c: Cursor)
    requires S.On(c) && S.Check(c, TFor)
    ensures
      var c1 := S.Consume(S.Advance(c), TIdent);
      var c2 := S.Consume(c1, TIn);
      && S.On(c2) && S.Left(c2) < S.Left(c) && Kept(c, c2)
      && (Fine(c2) ==> ForAt(S, c.pos, c1.previous.text) && c2.pos == c.pos + 3)
  {
    hide Source.Consume, Source.Advance, NameAt;
    Advances(S, c);
    TakesName(S, S.Advance(c));
    Takes(S, S.Consume(S.Advance(c), TIdent), TIn);
  }

  lemma {:induction false} ForSound(S: Source, c: Cursor)
    requires S.On(c) && S.Check(c, TFor)
    ensures
      var (s, c1) := S.ParseFor(S.Advance(c));
      S.On(c1) && Kept(c, c1) && (Fine(c1) ==> StmtAt(S, c.pos, c1.pos, s))
    decreases S.Left(c), 19
  {
    hide Source.ParseFor, Source.ParseExpression, Source.ParseBlock, Source.Consume, Source.Advance, ExprAt, StmtAt,
         HeadAt, ForAt;
    ForStep(S, S.Advance(c));
    ForHead(S, c);
    var c1 := S.Consume(S.Advance(c), TIdent);
    var c2 := S.Consume(c1, TIn);
    ExprSound(S, c2);
    var (e, c3) := S.ParseExpression(c2);
    if S.Check(c3, TDotDot) {
      Advances(S, c3);
      HeadSound(S, S.Advance(c3));
      var (z, c4) := S.ParseExpression(S.Advance(c3));
      var (b, c5) := S.ParseBlock(c4);
      if Fine(c5) {
        RuleFor(S, c.pos, c3.pos, c5.pos, c1.previous.text, e, z, b);
      }
    } else {
      HeadSound(S, c2);
      var (b, c4) := S.ParseBlock(c3);
      if Fine(c4) {
        RuleForIn(S, c.pos, c4.pos, c1.previous.text, e, b);
      }
    }
  }

  lemma {:induction false} FunctionSound(S: Source, c: Cursor)
    requires S.On(c)
    ensures
      var (s, c1) := S.ParseFunction(c);
      S.On(c1) && Kept(c, c1) && (Fine(c1) ==> FunctionAt(S, c.pos, c1.pos, s))
    decreases S.Left(c), 23
  {
    hide Source.ParseFunction, ParamList, Source.ParseTypeName, Source.ParseBlock, Source.Consume, ParamsAt, TypeAt,
         BlockAt, NameAt;
    FunctionStep(S, c);
    TakesName(S, c);
    var c1 := S.Consume(c, TIdent);
    Takes(S, c1, TLParen);
    var c2 := S.Consume(c1, TLParen);
    ParamListSound(S, c2);
    var (ps, c3) := ParamList(S, c2);
    Takes(S, c3, TRParen);
    var c4 := S.Consume(c3, TRParen);
    TypeNameSound(S, c4);
    var (t, c5) := S.ParseTypeName(c4);
    BlockSound(S, c5);
    var (b, c6) := S.ParseBlock(c5);
    if Fine(c6) {
      assert SignatureAt(S, c.pos, c5.pos, Function(c1.previous.text, ps, t, b));
    }
  }

  lemma RuleMembers(S: Source, i: nat, k: nat, j: nat, f: Stmt, fs: seq<Stmt>)
    requires MethodAt(S, i, k, f) && i < k <= j && MembersAt(S, k, j, fs)
    ensures MembersAt(S, i, j, [f] + fs)
  {
    hide FunctionAt;
    assert ([f] + fs)[1..] == fs;
  }

  lemma {:induction false} MembersSound(S: Source, c: Cursor)
    requires S.On(c)
    ensures
      var (ms, c1) := S.ParseMembers(c);
      S.On(c1) && c.pos <= c1.pos && Kept(c, c1) && (Fine(c1) ==> MembersAt(S, c.pos, c1.pos, ms))
    decreases S.Left(c), 24
  {
    hide Source.ParseMembers, Source.ParseFunction, Source.Advance, FunctionAt;
    S.MembersFirst(c);
    Advances(S, c);
    if S.Check(c, TRBrace) || S.AtEnd(c) {
    } else if S.Check(c, TFn) {
      FunctionSound(S, S.Advance(c));
      var (f, c1) := S.ParseFunction(S.Advance(c));
      MembersSound(S, c1);
      var (fs, c2) := S.ParseMembers(c1);
      if Fine(c2) {
        RuleMembers(S, c.pos, c1.pos, c2.pos, f, fs);
      }
    } else {
      Advances(S, S.Advance(c));
      if S.Check(c, TIdent) && S.Check(S.Advance(c), TIdent) {
        MembersSound(S, S.Advance(S.Advance(c)));
      } else {
        MembersSound(S, S.Advance(c));
      }
    }
  }

  lemma RuleClass(S: Source, i: nat, j: nat, name: string, ms: seq<Stmt>)
    requires Kind(S, i) == TClass && NameAt(S, i + 1, name) && Kind(S, i + 2) == TLBrace
    requires i + 3 <= j && MembersAt(S, i + 3, j, ms) && Kind(S, j) == TRBrace
    ensures StmtAt(S, i, j + 1, Class(name, ms))
  {
    hide NameAt, MembersAt;
  }

  lemma {:induction false} ClassSound(S: Source, c: Cursor)
    requires S.On(c) && S.Check(c, TClass)
    ensures
      var (s, c1) := S.ParseClass(S.Advance(c));
      S.On(c1) && Kept(c, c1) && (Fine(c1) ==> StmtAt(S, c.pos, c1.pos, s))
    decreases S.Left(c), 19
  {
    hide Source.ParseMembers, Source.Consume, Source.Advance, MembersAt, NameAt, StmtAt;
    Advances(S, c);
    var c0 := S.Advance(c);
    TakesName(S, c0);
    var c1 := S.Consume(c0, TIdent);
    Takes(S, c1, TLBrace);
    var c2 := S.Consume(c1, TLBrace);
    MembersSound(S, c2);
    var (ms, c3) := S.ParseMembers(c2);
    Takes(S, c3, TRBrace);
    if Fine(S.Consume(c3, TRBrace)) {
      RuleClass(S, c.pos, c3.pos, c1.previous.text, ms);
    }
  }

  lemma RuleRoutes(S: Source, i: nat, k: nat, j: nat, r: Route, rs: seq<Route>)
    requires RouteAt(S, i, k, r) && i < k <= j && RoutesAt(S, k, j, rs)
    ensures RoutesAt(S, i, j, [r] + rs)
  {
    hide RouteTailAt, NameAt, WordAt;
    assert ([r] + rs)[1..] == rs;
  }

  /** One route. */
  lemma {:induction false} RouteSound(S: Source, c: Cursor)
    requires S.On(c) && S.Check(c, TRoute)
    ensures
      var c1 := S.Consume(S.Advance(c), TIdent);
      var c2 := S.Consume(c1, TString);
      var (m, c3) := S.ParseMiddleware(c2);
      var (b, c4) := S.ParseBlock(c3);
      && S.On(c4) && S.Left(c4) < S.Left(c) && Kept(c, c4)
      && (Fine(c4) ==> RouteAt(S, c.pos, c4.pos, Route(c1.previous.text, c2.previous.text, m, b)))
    decreases S.Left(c), 23
  {
    hide Source.ParseMiddleware, Source.ParseBlock, Source.Consume, Source.Advance, MiddlewareAt, BlockAt;
    Advances(S, c);
    TakesName(S, S.Advance(c));
    var c1 := S.Consume(S.Advance(c), TIdent);
    Takes(S, c1, TString);
    var c2 := S.Consume(c1, TString);
    MiddlewareSound(S, c2);
    BlockSound(S, S.ParseMiddleware(c2).1);
  }

  lemma {:induction false} RoutesSound(S: Source, c: Cursor)
    requires S.On(c)
    ensures
      var (rs, c1) := S.ParseRoutes(c);
      S.On(c1) && c.pos <= c1.pos && Kept(c, c1) && (Fine(c1) ==> RoutesAt(S, c.pos, c1.pos, rs))
    decreases S.Left(c), 24
  {
    hide Source.ParseRoutes, Source.ParseMiddleware, Source.ParseBlock, Source.Consume, Source.Advance, RouteAt;
    S.RoutesFirst(c);
    Advances(S, c);
    if S.Check(c, TRBrace) || S.AtEnd(c) {
    } else if S.Check(c, TRoute) {
      RouteSound(S, c);
      var c1 := S.Consume(S.Advance(c), TIdent);
      var c2 := S.Consume(c1, TString);
      var (m, c3) := S.ParseMiddleware(c2);
      var (b, c4) := S.ParseBlock(c3);
      RoutesSound(S, c4);
      var (rs, c5) := S.ParseRoutes(c4);
      if Fine(c5) {
        RuleRoutes(S, c.pos, c4.pos, c5.pos, Route(c1.previous.text, c2.previous.text, m, b), rs);
      }
    } else {
      RoutesSound(S, S.Advance(c));
    }
  }

  lemma RuleServer(S: Source, i: nat, p: nat, j: nat, name: string, port: int, rs: seq<Route>)
    requires Kind(S, i) == TServer && NameAt(S, i + 1, name) && i + 2 <= p && PortAt(S, i + 2, p, port)
    requires Kind(S, p) == TLBrace && p + 1 <= j && RoutesAt(S, p + 1, j, rs) && Kind(S, j) == TRBrace
    ensures StmtAt(S, i, j + 1, Server(name, port, rs))
  {
    hide NameAt, RoutesAt, PortAt, ServerAt;
    RuleRoutesOn(S, i + 2, p, j, port, rs);
  }

  lemma RuleRoutesOn(S: Source, i: nat, p: nat, j: nat, port: int, rs: seq<Route>)
    requires i <= p && PortAt(S, i, p, port) && Kind(S, p) == TLBrace
    requires p + 1 <= j && RoutesAt(S, p + 1, j, rs) && Kind(S, j) == TRBrace
    ensures ServerAt(S, i, j + 1, port, rs)
  {
    hide RoutesAt, PortAt;
    assert j + 1 - 1 == j;
  }

  lemma ServerParse(S: Source, c: Cursor)
    requires S.On(c)
    ensures
      var c1 := S.Consume(c, TIdent);
      var (port, c2) := S.ParsePort(c1);
      var (rs, c3) := S.ParseRoutes(S.Consume(c2, TLBrace));
      S.ParseServer(c) == (Server(c1.previous.text, port, rs), S.Consume(c3, TRBrace))
  {
    hide Source.ParseRoutes, Source.ParsePort, Source.Consume;
  }

  lemma {:induction false} ServerSound(S: Source, c: Cursor)
    requires S.On(c) && S.Check(c, TServer)
    ensures
      var (s, c1) := S.ParseServer(S.Advance(c));
      S.On(c1) && Kept(c, c1) && (Fine(c1) ==> StmtAt(S, c.pos, c1.pos, s))
    decreases S.Left(c), 19
  {
    hide Source.ParseServer, Source.ParseRoutes, Source.ParsePort, Source.Consume, Source.Advance, RoutesAt, PortAt,
         NameAt, StmtAt;
    Advances(S, c);
    var c0 := S.Advance(c);
    ServerParse(S, c0);
    TakesName(S, c0);
    var c1 := S.Consume(c0, TIdent);
    PortSound(S, c1);
    var (port, c2) := S.ParsePort(c1);
    Takes(S, c2, TLBrace);
    var c3 := S.Consume(c2, TLBrace);
    RoutesSound(S, c3);
    var (rs, c4) := S.ParseRoutes(c3);
    Takes(S, c4, TRBrace);
    if Fine(S.Consume(c4, TRBrace)) {
      RuleServer(S, c.pos, c2.pos, c4.pos, c1.previous.text, port, rs);
    }
  }

  lemma RuleBlocks(S: Source, i: nat, j: nat, s: Stmt)
    ensures Kind(S, i) == TIf && IfAt(S, i + 1, j, s) && j <= |S.tokens| ==> StmtAt(S, i, j, s)
    ensures Kind(S, i) == TFn && FunctionAt(S, i + 1, j, s) ==> StmtAt(S, i, j, s)
    ensures s.While? && Kind(S, i) == TWhile && HeadAt(S, i + 1, j, s.cond, s.body) ==> StmtAt(S, i, j, s)
  {
    hide HeadAt, BlockAt, ElseAt, SignatureAt;
  }

  /** What the parser takes as a statement without an error is one. */
  lemma {:induction false} StmtSound(S: Source, c: Cursor)
    requires S.On(c)
    ensures
      var (s, c1) := S.ParseStatement(c);
      S.On(c1) && Kept(c, c1) && (Fine(c1) ==> StmtAt(S, c.pos, c1.pos, s))
    decreases S.Left(c), 20, 1
  {
    hide Source.ParseStatement, Source.Current, StmtAt, Kept;
    var k := S.Current(c).kind;
    if k == TLet || k == TIf || k == TWhile || k == TFor || k == TFn {
      BlocksSound(S, c);
    } else if k == TReturn || k == TImport || k == TClass || k == TServer {
      NamedSound(S, c);
    } else {
      PlainSound(S, c);
    }
  }

  lemma {:induction false} BlocksSound(S: Source, c: Cursor)
    requires S.On(c) && S.Current(c).kind in {TLet, TIf, TWhile, TFor, TFn}
    ensures
      var (s, c1) := S.ParseStatement(c);
      S.On(c1) && Kept(c, c1) && (Fine(c1) ==> StmtAt(S, c.pos, c1.pos, s))
    decreases S.Left(c), 20, 0
  {
    hide Source.ParseStatement, Source.ParseLet, Source.ParseIf, Source.ParseFor, Source.ParseFunction,
         Source.ParseExpression, Source.ParseBlock, Source.Advance, StmtAt, IfAt, FunctionAt, HeadAt;
    S.StatementCases(c);
    Advances(S, c);
    var (s, c1) := S.ParseStatement(c);
    RuleBlocks(S, c.pos, c1.pos, s);
    match S.Current(c).kind
    case TLet => LetSound(S, c);
    case TIf => IfSound(S, S.Advance(c));
    case TWhile => HeadSound(S, S.Advance(c));
    case TFor => ForSound(S, c);
    case TFn => FunctionSound(S, S.Advance(c));
  }

  lemma {:induction false} NamedSound(S: Source, c: Cursor)
    requires S.On(c) && S.Current(c).kind in {TReturn, TImport, TClass, TServer}
    ensures
      var (s, c1) := S.ParseStatement(c);
      S.On(c1) && Kept(c, c1) && (Fine(c1) ==> StmtAt(S, c.pos, c1.pos, s))
    decreases S.Left(c), 20, 0
  {
    hide Source.ParseStatement, Source.ParseReturn, Source.ParseClass, Source.ParseServer, Source.Consume,
         Source.Advance, Source.Current, Source.On, StmtAt, Kept, Fine;
    S.MoreStatementCases(c);
    match S.Current(c).kind
    case TReturn => ReturnSound(S, c);
    case TImport => ImportSound(S, c);
    case TClass => ClassSound(S, c);
    case TServer => ServerSound(S, c);
  }

  lemma PlainSound(S: Source, c: Cursor)
    requires S.On(c)
    requires S.Current(c).kind in {TPrint, TRespond} || !StatementKeyword(S.Current(c).kind)
    ensures
      var (s, c1) := S.ParseStatement(c);
      S.On(c1) && Kept(c, c1) && (Fine(c1) ==> StmtAt(S, c.pos, c1.pos, s))
  {
    hide Source.ParseStatement, Source.ParseExpression, Source.Consume, Source.Advance, Source.Current, Source.On,
         StmtAt, Kept, Fine;
    S.PlainStatementCases(c);
    match S.Current(c).kind
    case TPrint => PrintSound(S, c);
    case TRespond => RespondSound(S, c);
    case _ => ExprStmtSound(S, c);
  }

  // ----- programs -----

  lemma {:induction false} SynchronizeKept(S: Source, c: Cursor)
    requires S.On(c)
    ensures var c1 := S.Synchronize(c); c1.hadError == c.hadError && c1.panic == c.panic
    decreases S.Left(c)
  {
    if !S.AtEnd(c) && !StartsStatement(S.Current(c).kind) {
      SynchronizeKept(S, S.Advance(c));
    }
  }

  /** Once an error was reported there is no tree. */
  lemma {:induction false} TopSound(S: Source, c: Cursor)
    requires S.On(c) && !c.panic
    ensures
      var (ss, c1) := S.ParseTop(c);
      !c1.hadError ==> !c.hadError && StmtsAt(S, c.pos, |S.tokens|, ss)
    decreases S.Left(c)
  {
    hide Source.ParseTop, Source.ParseStatement, Source.Synchronize, StmtAt;
    S.TopFirst(c);
    if !S.AtEnd(c) {
      hide StmtsAt;
      StmtSound(S, c);
      var (s, c1) := S.ParseStatement(c);
      var c2 := if c1.panic then S.Synchronize(c1.(panic := false)) else c1;
      if c1.panic {
        SynchronizeKept(S, c1.(panic := false));
      }
      TopSound(S, c2);
      var (ss, c3) := S.ParseTop(c2);
      if !c3.hadError {
        RuleStmts(S, c.pos, c1.pos, |S.tokens|, s, ss);
      }
    }
  }

  /** A token list that is no program gives no tree, and any other only its own. */
  lemma OnlyPrograms(S: Source)
    ensures
      var program := S.ParseProgram();
      program.Some? ==> IsProgram(S, program.value)
  {
    hide Source.ParseTop, StmtsAt;
    TopSound(S, Source.START);
  }
}
