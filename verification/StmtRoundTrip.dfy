/** Reading back what Printer writes gives the same tree, for statements and programs. */
module StmtRoundTrip {
  import opened Wrappers
  import opened Decimal
  import opened Ast
  import opened Tokens
  import opened Syntax
  import opened Printer
  import opened ExprRoundTrip

  /** Nothing closes the statement's last expression. */
  predicate EndsOpen(s: Stmt) {
    match s
    case Let(_, init) => init.Some?
    case Return(result) => result.Some?
    case ExprStmt(_) => true
    case Respond(_, _) => true
    case _ => false
  }

  /** The tokens that can start a statement and prolong an expression. */
  predicate Sticky(k: TokenKind) {
    k in {TLParen, TLBracket, TMinus}
  }

  /** `s` and `next` do not run into each other. */
  predicate Apart(P: Pen, s: Stmt, next: Stmt) {
    s != Return(None) && (EndsOpen(s) ==> P.Stmt(next) != [] && !Sticky(P.Stmt(next)[0].kind))
  }

  /** The statement has a text. */
  predicate Writable(S: Source, P: Pen, s: Stmt)
    decreases s, 0
  {
    match s
    case Let(_, init) => init.None? || Readable(S, P, init.value)
    case If(cond, t, None) => Readable(S, P, cond) && WritableBlock(S, P, t)
    case If(cond, t, Some(e)) =>
      Readable(S, P, cond) && WritableBlock(S, P, t) && if e.If? then Writable(S, P, e) else WritableBlock(S, P, e)
    case While(cond, body) => Readable(S, P, cond) && WritableBlock(S, P, body)
    case For(_, start, end, body) => Readable(S, P, start) && Readable(S, P, end) && WritableBlock(S, P, body)
    case ForIn(_, iterable, body) => Readable(S, P, iterable) && WritableBlock(S, P, body)
    case Block(_) => false
    case Function(_, _, _, body) => WritableBlock(S, P, body)
    case Return(result) => result.None? || Readable(S, P, result.value)
    case Print(e) => Readable(S, P, e)
    case ExprStmt(e) => Readable(S, P, e)
    case Import(_) => true
    case Class(_, members) => forall i :: 0 <= i < |members| ==> members[i].Function? && Writable(S, P, members[i])
    case Server(_, port, routes) =>
      0 <= port <= 0x7fff_ffff && forall i :: 0 <= i < |routes| ==> WritableBlock(S, P, routes[i].body)
    case Respond(status, reply) =>
      Readable(S, P, status) && Readable(S, P, reply) && !Sticky(P.Expr(reply, 0)[0].kind)
  }

  predicate WritableBlock(S: Source, P: Pen, s: Stmt)
    decreases s, 1
  {
    s.Block? && WritableList(S, P, s.stmts)
  }

  predicate WritableList(S: Source, P: Pen, ss: seq<Stmt>)
    decreases ss, 0
  {
    ss == [] || (
      && Writable(S, P, ss[0])
      && (|ss| > 1 ==> Apart(P, ss[0], ss[1]))
      && WritableList(S, P, ss[1..]))
  }

  /** What may stand behind `s`. */
  ghost predicate Ends(S: Source, s: Stmt, c: Cursor) {
    var k := S.Current(c).kind;
    && k != TElse && k != TAssign
    && (EndsOpen(s) ==> !Continues(0, k))
    && (s == Return(None) ==> k == TRBrace || S.AtEnd(c))
  }

  ghost predicate Closes(S: Source, c: Cursor) {
    S.Check(c, TRBrace) || S.AtEnd(c)
  }

  lemma StmtFirst(S: Source, P: Pen, s: Stmt)
    requires Writable(S, P, s)
    ensures P.Stmt(s) != []
    ensures StatementKeyword(P.Stmt(s)[0].kind) || StartsExpr(P.Stmt(s)[0].kind)
    ensures Continues(0, P.Stmt(s)[0].kind) <==> Sticky(P.Stmt(s)[0].kind)
  {
    hide Pen.Stmt, TokenLevel;
    assert !s.Block?;
    FirstToken(P, s);
    StickyStarts(P.Stmt(s)[0].kind);
  }

  lemma FirstToken(P: Pen, s: Stmt)
    requires !s.Block?
    ensures P.Stmt(s) != []
    ensures StatementKeyword(P.Stmt(s)[0].kind) || StartsExpr(P.Stmt(s)[0].kind)
  {
    hide Pen.Expr, Pen.Stmts, Pen.Routes, Pen.Params, Pen.TypeName;
    if s.ExprStmt? {
      ExprFirst(P, s.expr, 0);
    }
  }

  /** Of the tokens that start statements, those that prolong an expression. */
  lemma StickyStarts(k: TokenKind)
    ensures StatementKeyword(k) || StartsExpr(k) ==> (Continues(0, k) <==> Sticky(k))
  {
  }

  // ----- statements without blocks -----

  lemma ReadsLet(S: Source, P: Pen, name: string, init: Option<Expr>, c: Cursor)
    requires S.On(c) && Stands(S, c, P.Stmt(Let(name, init)))
    requires init.Some? ==> Readable(S, P, init.value)
    requires
      var k := S.Current(Past(c, P.Stmt(Let(name, init)))).kind;
      if init.Some? then !Continues(0, k) else k != TAssign
    ensures S.ParseStatement(c) == (Let(name, init), Past(c, P.Stmt(Let(name, init))))
  {
    hide Source.ParseStatement, Source.ParseExpression, Pen.Expr, Readable, Stands, Past;
    S.StatementCases(c);
    var l, n := Word(TLet, "let"), Name(name);
    var c1 := Past(c, [l]);
    var c2 := Past(c1, [n]);
    if init.None? {
      assert P.Stmt(Let(name, init)) == [l] + [n];
      StandsFirst(S, c, l, [n]);
      StandsOne(S, c1, n);
    } else {
      var a := P.Expr(init.value, 0);
      assert P.Stmt(Let(name, init)) == [l] + ([n] + ([ASSIGN] + a));
      StandsFirst(S, c, l, [n] + ([ASSIGN] + a));
      StandsFirst(S, c1, n, [ASSIGN] + a);
      StandsFirst(S, c2, ASSIGN, a);
      ExprReads(S, P, init.value, Past(c2, [ASSIGN]));
    }
  }

  lemma ReturnText(P: Pen, result: Option<Expr>)
    ensures P.Stmt(Return(result)) ==
      if result.None? then [Word(TReturn, "return")] else [Word(TReturn, "return")] + P.Expr(result.value, 0)
  {
    hide Pen.Expr;
  }

  lemma ReadsReturn(S: Source, P: Pen, result: Option<Expr>, c: Cursor)
    requires S.On(c) && Stands(S, c, P.Stmt(Return(result)))
    requires result.Some? ==> Readable(S, P, result.value)
    requires
      var c1 := Past(c, P.Stmt(Return(result)));
      if result.Some? then !Continues(0, S.Current(c1).kind) else Closes(S, c1)
    ensures S.ParseStatement(c) == (Return(result), Past(c, P.Stmt(Return(result))))
  {
    hide Source.ParseStatement, Source.ParseExpression, Pen.Expr, Pen.Stmt, Readable, Stands, Past, TokenLevel;
    S.MoreStatementCases(c);
    ReturnText(P, result);
    var t := Word(TReturn, "return");
    if result.None? {
      StandsOne(S, c, t);
    } else {
      var a := P.Expr(result.value, 0);
      StandsFirst(S, c, t, a);
      ExprFirst(P, result.value, 0);
      StandsHead(S, Past(c, [t]), a);
      ExprReads(S, P, result.value, Past(c, [t]));
    }
  }

  lemma ReadsPrint(S: Source, P: Pen, e: Expr, c: Cursor)
    requires S.On(c) && Stands(S, c, P.Stmt(Print(e))) && Readable(S, P, e)
    ensures S.ParseStatement(c) == (Print(e), Past(c, P.Stmt(Print(e))))
  {
    hide Source.ParseStatement, Source.ParseExpression, Pen.Expr, Readable, Stands, Past;
    S.PlainStatementCases(c);
    var t, a := Word(TPrint, "print"), P.Expr(e, 0);
    assert P.Stmt(Print(e)) == [t] + ([LPAREN] + (a + [RPAREN]));
    StandsFirst(S, c, t, [LPAREN] + (a + [RPAREN]));
    StandsFirst(S, Past(c, [t]), LPAREN, a + [RPAREN]);
    ReadsClosed(S, P, e, RPAREN, Past(Past(c, [t]), [LPAREN]));
  }

  lemma ReadsExprStmt(S: Source, P: Pen, e: Expr, c: Cursor)
    requires Ready(S, P, e, 0, 0, c)
    ensures S.ParseStatement(c) == (ExprStmt(e), Past(c, P.Expr(e, 0)))
  {
    hide Source.ParseStatement, Source.ParseExpression, Pen.Expr, Readable, Past;
    S.PlainStatementCases(c);
    ExprFirst(P, e, 0);
    StandsHead(S, c, P.Expr(e, 0));
    ExprReads(S, P, e, c);
  }

  lemma ReadsImport(S: Source, P: Pen, name: string, c: Cursor)
    requires S.On(c) && Stands(S, c, P.Stmt(Import(name)))
    ensures S.ParseStatement(c) == (Import(name), Past(c, P.Stmt(Import(name))))
  {
    hide Source.ParseStatement, Source.ParseExpression, Stands, Past;
    S.MoreStatementCases(c);
    var t, n := Word(TImport, "import"), Name(name);
    assert P.Stmt(Import(name)) == [t] + [n];
    StandsFirst(S, c, t, [n]);
    StandsOne(S, Past(c, [t]), n);
  }

  lemma ReadsRespond(S: Source, P: Pen, status: Expr, reply: Expr, c: Cursor)
    requires S.On(c) && Stands(S, c, P.Stmt(Respond(status, reply)))
    requires Readable(S, P, status) && Readable(S, P, reply) && !Sticky(P.Expr(reply, 0)[0].kind)
    requires !Continues(0, S.Current(Past(c, P.Stmt(Respond(status, reply)))).kind)
    ensures S.ParseStatement(c) == (Respond(status, reply), Past(c, P.Stmt(Respond(status, reply))))
  {
    hide Source.ParseStatement, Source.ParseExpression, Pen.Expr, Readable, Stands, Past;
    S.PlainStatementCases(c);
    var t, a, b := Word(TRespond, "respond"), P.Expr(status, 0), P.Expr(reply, 0);
    assert P.Stmt(Respond(status, reply)) == [t] + (a + b);
    StandsFirst(S, c, t, a + b);
    var c1 := Past(c, [t]);
    StandsSplit(S, c1, a, b);
    ExprFirst(P, reply, 0);
    StandsHead(S, Past(c1, a), b);
    ExprReads(S, P, status, c1);
    ExprReads(S, P, reply, Past(c1, a));
  }

  // ----- statements with blocks -----

  lemma BlockText(P: Pen, b: Stmt)
    requires b.Block?
    ensures P.Stmt(b) == [LBRACE] + (P.Stmts(b.stmts) + [RBRACE])
    ensures P.Stmt(b) != [] && P.Stmt(b)[0] == LBRACE
  {
    hide Pen.Stmts;
  }

  /** An expression in front of a block. */
  lemma ReadsHead(S: Source, P: Pen, e: Expr, b: Stmt, c: Cursor)
    requires S.On(c) && Readable(S, P, e) && b.Block? && Stands(S, c, P.Expr(e, 0) + P.Stmt(b))
    ensures S.On(Past(c, P.Expr(e, 0))) && Stands(S, Past(c, P.Expr(e, 0)), P.Stmt(b))
    ensures S.ParseExpression(c) == (e, Past(c, P.Expr(e, 0)))
    ensures S.Check(Past(c, P.Expr(e, 0)), TLBrace)
    ensures Past(c, P.Expr(e, 0) + P.Stmt(b)) == Past(Past(c, P.Expr(e, 0)), P.Stmt(b))
  {
    hide Source.ParseExpression, Pen.Expr, Pen.Stmt, Readable, Stands, Past;
    var a := P.Expr(e, 0);
    StandsSplit(S, c, a, P.Stmt(b));
    BlockText(P, b);
    StandsHead(S, Past(c, a), P.Stmt(b));
    ExprReads(S, P, e, c);
  }

  lemma {:induction false} ReadsBlock(S: Source, P: Pen, b: Stmt, c: Cursor)
    requires S.On(c) && WritableBlock(S, P, b) && Stands(S, c, P.Stmt(b))
    ensures S.ParseBlock(c) == (b, Past(c, P.Stmt(b)))
    decreases b, 1
  {
    hide Source.ParseStatements, WritableList, Pen.Stmts, Pen.Stmt, Stands, Past;
    BlockText(P, b);
    var ts := P.Stmts(b.stmts);
    StandsFirst(S, c, LBRACE, ts + [RBRACE]);
    var c1 := Past(c, [LBRACE]);
    StandsSplit(S, c1, ts, [RBRACE]);
    StandsOne(S, Past(c1, ts), RBRACE);
    ReadsStmts(S, P, b.stmts, c1);
  }

  lemma {:induction false} ReadsWhile(S: Source, P: Pen, s: Stmt, c: Cursor)
    requires s.While? && Writable(S, P, s) && S.On(c) && Stands(S, c, P.Stmt(s))
    ensures S.ParseStatement(c) == (s, Past(c, P.Stmt(s)))
    decreases s, 2
  {
    hide Source.ParseStatement, Source.ParseExpression, Source.ParseBlock, WritableBlock, Pen.Expr, Readable, Stands,
         Past;
    S.StatementCases(c);
    var t, a, b := Word(TWhile, "while"), P.Expr(s.cond, 0), P.Stmt(s.body);
    assert P.Stmt(s) == [t] + (a + b);
    StandsFirst(S, c, t, a + b);
    var c1 := Past(c, [t]);
    assert s.body.Block? by { BodyIsBlock(S, P, s.body); }
    ReadsHead(S, P, s.cond, s.body, c1);
    ReadsBlock(S, P, s.body, Past(c1, a));
  }

  lemma BodyIsBlock(S: Source, P: Pen, b: Stmt)
    requires WritableBlock(S, P, b)
    ensures b.Block?
  {
    hide WritableList;
  }

  /** `name in`, behind `for`. */
  lemma ReadsForHead(S: Source, name: string, rest: seq<Token>, c: Cursor)
    requires S.On(c) && Stands(S, c, [Name(name), Word(TIn, "in")] + rest)
    ensures
      var c1 := S.Consume(c, TIdent);
      var c2 := S.Consume(c1, TIn);
      && c1.previous.text == name && S.On(c2) && Stands(S, c2, rest)
      && Past(c, [Name(name), Word(TIn, "in")] + rest) == Past(c2, rest)
  {
    hide Stands, Past;
    var n, w := Name(name), Word(TIn, "in");
    assert [n, w] + rest == [n] + ([w] + rest);
    StandsFirst(S, c, n, [w] + rest);
    StandsFirst(S, Past(c, [n]), w, rest);
  }

  lemma RangeToken()
    ensures !Continues(0, TDotDot)
  {
  }

  lemma ForText(P: Pen, s: Stmt)
    requires s.For?
    ensures P.Stmt(s) == [Word(TFor, "for")] + ([Name(s.name), Word(TIn, "in")] +
      (P.Expr(s.start, 0) + ([DOT_DOT] + (P.Expr(s.end, 0) + P.Stmt(s.body)))))
  {
    hide Pen.Expr;
  }

  lemma ForParts(S: Source, P: Pen, s: Stmt)
    requires s.For? && Writable(S, P, s)
    ensures Readable(S, P, s.start) && Readable(S, P, s.end) && WritableBlock(S, P, s.body)
  {
  }

  lemma {:induction false} ReadsFor(S: Source, P: Pen, s: Stmt, c: Cursor)
    requires s.For? && Writable(S, P, s) && S.On(c) && Stands(S, c, P.Stmt(s))
    ensures S.ParseStatement(c) == (s, Past(c, P.Stmt(s)))
    decreases s, 2
  {
    hide Source.ParseStatement, Source.ParseExpression, Source.ParseBlock, Writable, WritableBlock, Pen.Expr,
         Pen.Stmt, Readable, Stands,
         Past, Source.Consume, TokenLevel;
    S.StatementCases(c);
    ForParts(S, P, s);
    RangeToken();
    var t, a, z, b := Word(TFor, "for"), P.Expr(s.start, 0), P.Expr(s.end, 0), P.Stmt(s.body);
    var rest := a + ([DOT_DOT] + (z + b));
    ForText(P, s);
    StandsFirst(S, c, t, [Name(s.name), Word(TIn, "in")] + rest);
    ReadsForHead(S, s.name, rest, Past(c, [t]));
    var c1 := S.Consume(S.Consume(Past(c, [t]), TIdent), TIn);
    StandsSplit(S, c1, a, [DOT_DOT] + (z + b));
    var c2 := Past(c1, a);
    StandsFirst(S, c2, DOT_DOT, z + b);
    ExprReads(S, P, s.start, c1);
    var c3 := Past(c2, [DOT_DOT]);
    BodyIsBlock(S, P, s.body);
    ReadsHead(S, P, s.end, s.body, c3);
    ReadsBlock(S, P, s.body, Past(c3, z));
  }

  lemma {:induction false} ReadsForIn(S: Source, P: Pen, s: Stmt, c: Cursor)
    requires s.ForIn? && Writable(S, P, s) && S.On(c) && Stands(S, c, P.Stmt(s))
    ensures S.ParseStatement(c) == (s, Past(c, P.Stmt(s)))
    decreases s, 2
  {
    hide Source.ParseStatement, Source.ParseExpression, Source.ParseBlock, WritableBlock, Pen.Expr, Readable, Stands,
         Past, Source.Consume;
    S.StatementCases(c);
    var t, a, b := Word(TFor, "for"), P.Expr(s.iterable, 0), P.Stmt(s.body);
    assert P.Stmt(s) == [t] + ([Name(s.name), Word(TIn, "in")] + (a + b));
    StandsFirst(S, c, t, [Name(s.name), Word(TIn, "in")] + (a + b));
    ReadsForHead(S, s.name, a + b, Past(c, [t]));
    var c1 := S.Consume(S.Consume(Past(c, [t]), TIdent), TIn);
    BodyIsBlock(S, P, s.body);
    ReadsHead(S, P, s.iterable, s.body, c1);
    ReadsBlock(S, P, s.body, Past(c1, a));
  }

  /** An `if`, its keyword already taken. */
  lemma {:induction false} ReadsIf(S: Source, P: Pen, s: Stmt, c: Cursor)
    requires s.If? && Writable(S, P, s) && S.On(c) && Stands(S, c, P.Stmt(s)[1..])
    requires !S.Check(Past(c, P.Stmt(s)[1..]), TElse)
    ensures S.ParseIf(c) == (s, Past(c, P.Stmt(s)[1..]))
    decreases s, 2
  {
    hide Source.ParseExpression, Source.ParseBlock, Source.ParseIf, WritableBlock, Pen.Expr, Readable, Stands, Past;
    IfStep(S, c);
    var a, b := P.Expr(s.cond, 0), P.Stmt(s.thenBranch);
    BodyIsBlock(S, P, s.thenBranch);
    if s.elseBranch.None? {
      assert P.Stmt(s)[1..] == a + b;
      ReadsHead(S, P, s.cond, s.thenBranch, c);
      ReadsBlock(S, P, s.thenBranch, Past(c, a));
    } else {
      IfElseText(P, s);
      StandsSplit(S, c, a + b, [Word(TElse, "else")] + P.Stmt(s.elseBranch.value));
      ReadsHead(S, P, s.cond, s.thenBranch, c);
      var c1 := Past(c, a);
      ReadsBlock(S, P, s.thenBranch, c1);
      ReadsElse(S, P, s, Past(c1, b));
    }
  }

  lemma IfElseText(P: Pen, s: Stmt)
    requires s.If? && s.elseBranch.Some?
    ensures P.Stmt(s)[1..] ==
      P.Expr(s.cond, 0) + P.Stmt(s.thenBranch) + ([Word(TElse, "else")] + P.Stmt(s.elseBranch.value))
  {
    hide Pen.Expr;
    var a, b, e := P.Expr(s.cond, 0), P.Stmt(s.thenBranch), P.Stmt(s.elseBranch.value);
    var x := [Word(TIf, "if")] + a + b + [Word(TElse, "else")] + e;
    assert P.Stmt(s) == x;
    assert x == [Word(TIf, "if")] + (a + b + ([Word(TElse, "else")] + e));
  }

  lemma IfStep(S: Source, c: Cursor)
    requires S.On(c)
    ensures
      var (e, c1) := S.ParseExpression(c);
      var (t, c2) := S.ParseBlock(c1);
      var (f, c3) := ElsePart(S, c2);
      S.ParseIf(c) == (If(e, t, f), c3)
  {
    hide Source.ParseExpression, Source.ParseBlock;
  }

  function ElsePart(S: Source, c: Cursor): (Option<Stmt>, Cursor)
    requires S.On(c)
  {
    if !S.Check(c, TElse) then (None, c)
    else
      var c1 := S.Advance(c);
      var (f, c2) := if S.Check(c1, TIf) then S.ParseIf(S.Advance(c1)) else S.ParseBlock(c1);
      (Some(f), c2)
  }

  lemma {:induction false} ReadsElse(S: Source, P: Pen, s: Stmt, c: Cursor)
    requires s.If? && s.elseBranch.Some? && Writable(S, P, s) && S.On(c)
    requires Stands(S, c, [Word(TElse, "else")] + P.Stmt(s.elseBranch.value))
    requires !S.Check(Past(c, [Word(TElse, "else")] + P.Stmt(s.elseBranch.value)), TElse)
    ensures ElsePart(S, c) == (s.elseBranch, Past(c, [Word(TElse, "else")] + P.Stmt(s.elseBranch.value)))
    decreases s, 1
  {
    hide Source.ParseExpression, Source.ParseBlock, Source.ParseIf, WritableBlock, Pen.Expr, Pen.Stmt, Readable,
         Stands, Past;
    var t, e := Word(TElse, "else"), s.elseBranch.value;
    StandsFirst(S, c, t, P.Stmt(e));
    var c1 := Past(c, [t]);
    if e.If? {
      IfText(P, e);
      var i, rest := Word(TIf, "if"), P.Stmt(e)[1..];
      StandsFirst(S, c1, i, rest);
      ReadsIf(S, P, e, Past(c1, [i]));
    } else {
      BodyIsBlock(S, P, e);
      BlockText(P, e);
      StandsHead(S, c1, P.Stmt(e));
      ReadsBlock(S, P, e, c1);
    }
  }

  lemma IfText(P: Pen, s: Stmt)
    requires s.If?
    ensures P.Stmt(s) != [] && P.Stmt(s) == [Word(TIf, "if")] + P.Stmt(s)[1..]
  {
    hide Pen.Expr;
  }

  // ----- functions -----

  lemma ReadsTypeName(S: Source, t: Option<string>, rest: seq<Token>, c: Cursor)
    requires S.On(c) && rest != [] && rest[0].kind != TIdent && Stands(S, c, Pen.TypeName(t) + rest)
    ensures
      var (t', c1) := S.ParseTypeName(c);
      t' == t && Stands(S, c1, rest) && Past(c, Pen.TypeName(t) + rest) == Past(c1, rest)
  {
    hide Stands, Past;
    if t.None? {
      assert Pen.TypeName(t) + rest == rest;
    } else {
      StandsFirst(S, c, Name(t.value), rest);
    }
    StandsHead(S, c, Pen.TypeName(t) + rest);
  }

  /** Parameters and the closing parenthesis. */
  lemma {:induction false} ReadsParams(S: Source, ps: seq<Param>, rest: seq<Token>, c: Cursor)
    requires S.On(c) && ps != [] && Stands(S, c, Pen.Params(ps) + ([RPAREN] + rest))
    ensures
      var (ps', c1) := S.ParseParams(c);
      ps' == ps && Stands(S, c1, [RPAREN] + rest) &&
        Past(c, Pen.Params(ps) + ([RPAREN] + rest)) == Past(c1, [RPAREN] + rest)
  {
    hide Stands, Past, Source.ParseParams, Source.ParseTypeName, Pen.TypeName;
    S.ParamsFirst(c);
    var n, t, tail := Name(ps[0].name), Pen.TypeName(ps[0].typeName), [RPAREN] + rest;
    var c1 := Past(c, [n]);
    if |ps| == 1 {
      assert ps == [ps[0]];
      assert Pen.Params(ps) + tail == [n] + (t + tail);
      StandsFirst(S, c, n, t + tail);
      ReadsTypeName(S, ps[0].typeName, tail, c1);
      StandsHead(S, S.ParseTypeName(c1).1, tail);
    } else {
      var more := Pen.Params(ps[1..]) + tail;
      assert Pen.Params(ps) + tail == [n] + (t + ([COMMA] + more));
      StandsFirst(S, c, n, t + ([COMMA] + more));
      ReadsTypeName(S, ps[0].typeName, [COMMA] + more, c1);
      var c2 := S.ParseTypeName(c1).1;
      StandsFirst(S, c2, COMMA, more);
      ReadsParams(S, ps[1..], rest, Past(c2, [COMMA]));
      assert ps == [ps[0]] + ps[1..];
    }
  }

  /** The parameter list of `fn`, from behind the opening parenthesis. */
  function ParamList(S: Source, c: Cursor): (r: (seq<Param>, Cursor))
    requires S.On(c)
    ensures S.On(r.1) && c.pos <= r.1.pos
  {
    if S.Check(c, TRParen) then ([], c) else S.ParseParams(c)
  }

  lemma ReadsParamList(S: Source, ps: seq<Param>, rest: seq<Token>, c: Cursor)
    requires S.On(c) && Stands(S, c, Pen.Params(ps) + ([RPAREN] + rest))
    ensures
      var (ps', c1) := ParamList(S, c);
      var c2 := S.Consume(c1, TRParen);
      ps' == ps && Stands(S, c2, rest) && Past(c, Pen.Params(ps) + ([RPAREN] + rest)) == Past(c2, rest)
  {
    hide Stands, Past, Source.ParseParams, Pen.TypeName;
    if ps == [] {
      assert Pen.Params(ps) + ([RPAREN] + rest) == [RPAREN] + rest;
      StandsFirst(S, c, RPAREN, rest);
    } else {
      ReadsParams(S, ps, rest, c);
      StandsHead(S, c, Pen.Params(ps) + ([RPAREN] + rest));
      assert (Pen.Params(ps) + ([RPAREN] + rest))[0] == Name(ps[0].name);
      StandsFirst(S, S.ParseParams(c).1, RPAREN, rest);
    }
  }

  lemma FunctionStep(S: Source, c: Cursor)
    requires S.On(c)
    ensures
      var c1 := S.Consume(c, TIdent);
      var (ps, c2) := ParamList(S, S.Consume(c1, TLParen));
      var (t, c3) := S.ParseTypeName(S.Consume(c2, TRParen));
      var (b, c4) := S.ParseBlock(c3);
      S.ParseFunction(c) == (Function(c1.previous.text, ps, t, b), c4)
  {
    hide Source.ParseParams, Source.ParseTypeName, Source.ParseBlock, Source.Consume;
  }

  /** A function, its keyword already taken. */
  lemma {:induction false} ReadsFunction(S: Source, P: Pen, s: Stmt, c: Cursor)
    requires s.Function? && Writable(S, P, s) && S.On(c) && Stands(S, c, P.Stmt(s)[1..])
    ensures S.ParseFunction(c) == (s, Past(c, P.Stmt(s)[1..]))
    decreases s, 2
  {
    hide Source.ParseFunction, Source.ParseTypeName, Source.ParseBlock, ParamList, WritableBlock, Pen.Stmt,
         Pen.Params, Pen.TypeName, Stands, Past;
    FunctionStep(S, c);
    FunctionText(P, s);
    var n, t, b := Name(s.name), Pen.TypeName(s.returnType), P.Stmt(s.body);
    var tail := Pen.Params(s.params) + ([RPAREN] + (t + b));
    StandsFirst(S, c, n, [LPAREN] + tail);
    StandsFirst(S, Past(c, [n]), LPAREN, tail);
    var c2 := Past(Past(c, [n]), [LPAREN]);
    ReadsParamList(S, s.params, t + b, c2);
    var c3 := S.Consume(ParamList(S, c2).1, TRParen);
    BodyIsBlock(S, P, s.body);
    BlockText(P, s.body);
    ReadsTypeName(S, s.returnType, b, c3);
    ReadsBlock(S, P, s.body, S.ParseTypeName(c3).1);
  }

  lemma FunctionText(P: Pen, s: Stmt)
    requires s.Function?
    ensures P.Stmt(s) != [] && P.Stmt(s) == [Word(TFn, "fn")] + P.Stmt(s)[1..]
    ensures P.Stmt(s)[1..] ==
      [Name(s.name)] + ([LPAREN] + (Pen.Params(s.params) + ([RPAREN] + (Pen.TypeName(s.returnType) + P.Stmt(s.body)))))
  {
    hide Pen.Params, Pen.TypeName;
    var ps, t, b := Pen.Params(s.params), Pen.TypeName(s.returnType), P.Stmt(s.body);
    var x := [Word(TFn, "fn"), Name(s.name), LPAREN] + ps + [RPAREN] + t + b;
    assert P.Stmt(s) == x;
    assert x == [Word(TFn, "fn")] + ([Name(s.name)] + ([LPAREN] + (ps + ([RPAREN] + (t + b)))));
  }

  // ----- classes and servers -----

  predicate Methods(S: Source, P: Pen, ms: seq<Stmt>) {
    forall i :: 0 <= i < |ms| ==> ms[i].Function? && Writable(S, P, ms[i])
  }

  lemma StmtsText(P: Pen, ss: seq<Stmt>)
    ensures P.Stmts(ss) == if ss == [] then [] else P.Stmt(ss[0]) + P.Stmts(ss[1..])
  {
    hide Pen.Stmt;
  }

  lemma MembersStep(S: Source, c: Cursor)
    requires S.On(c)
    ensures S.Check(c, TRBrace) ==> S.ParseMembers(c) == ([], c)
    ensures S.Check(c, TFn) && !S.AtEnd(c) ==>
      var (f, c1) := S.ParseFunction(S.Advance(c));
      var (fs, c2) := S.ParseMembers(c1);
      S.ParseMembers(c) == ([f] + fs, c2)
  {
    hide Source.ParseMembers, Source.ParseFunction;
    S.MembersFirst(c);
  }

  lemma {:induction false} ReadsMembers(S: Source, P: Pen, ms: seq<Stmt>, c: Cursor)
    requires Methods(S, P, ms) && S.On(c) && Stands(S, c, P.Stmts(ms) + [RBRACE])
    ensures
      var (ms', c1) := S.ParseMembers(c);
      ms' == ms && S.Consume(c1, TRBrace) == Past(c, P.Stmts(ms) + [RBRACE])
    decreases ms, 0
  {
    hide Source.ParseMembers, Source.ParseFunction, Writable, Pen.Stmt, Pen.Stmts, Stands, Past;
    StmtsText(P, ms);
    MembersStep(S, c);
    if ms == [] {
      assert P.Stmts(ms) + [RBRACE] == [RBRACE];
      StandsOne(S, c, RBRACE);
    } else {
      FunctionText(P, ms[0]);
      var w, f, rest := Word(TFn, "fn"), P.Stmt(ms[0])[1..], P.Stmts(ms[1..]) + [RBRACE];
      assert P.Stmts(ms) + [RBRACE] == [w] + (f + rest);
      OnToken(S, c, P.Stmts(ms) + [RBRACE]);
      StandsFirst(S, c, w, f + rest);
      var c1 := Past(c, [w]);
      StandsSplit(S, c1, f, rest);
      ReadsFunction(S, P, ms[0], c1);
      ReadsMembers(S, P, ms[1..], Past(c1, f));
      assert ms == [ms[0]] + ms[1..];
    }
  }

  lemma ClassText(S: Source, P: Pen, s: Stmt)
    requires s.Class? && Writable(S, P, s)
    ensures P.Stmt(s) == [Word(TClass, "class")] + ([Name(s.name)] + ([LBRACE] + (P.Stmts(s.members) + [RBRACE])))
    ensures Methods(S, P, s.members)
  {
    hide Pen.Stmts, WritableBlock, Readable, Apart;
  }

  lemma {:induction false} ReadsClass(S: Source, P: Pen, s: Stmt, c: Cursor)
    requires s.Class? && Writable(S, P, s) && S.On(c) && Stands(S, c, P.Stmt(s))
    ensures S.ParseStatement(c) == (s, Past(c, P.Stmt(s)))
    decreases s, 2
  {
    hide Source.ParseStatement, Source.ParseMembers, Pen.Stmt, Pen.Stmts, Stands, Past, Writable, WritableBlock;
    S.MoreStatementCases(c);
    ClassText(S, P, s);
    var w, n, tail := Word(TClass, "class"), Name(s.name), P.Stmts(s.members) + [RBRACE];
    StandsFirst(S, c, w, [n] + ([LBRACE] + tail));
    StandsFirst(S, Past(c, [w]), n, [LBRACE] + tail);
    var c2 := Past(Past(c, [w]), [n]);
    StandsFirst(S, c2, LBRACE, tail);
    ReadsMembers(S, P, s.members, Past(c2, [LBRACE]));
  }

  lemma RoutesText(P: Pen, rs: seq<Route>)
    ensures P.Routes(rs) + [RBRACE] ==
      if rs == [] then [RBRACE]
      else
        [Word(TRoute, "route")] + ([Name(rs[0].verb)] + ([Token(TString, rs[0].path)] +
          (Pen.Middleware(rs[0].middleware) + (P.Stmt(rs[0].body) + (P.Routes(rs[1..]) + [RBRACE])))))
  {
    hide Pen.Stmt, Pen.Middleware;
  }

  /** `route verb "path" [middleware]` */
  lemma ReadsRouteHead(S: Source, r: Route, rest: seq<Token>, c: Cursor)
    requires S.On(c) && rest != [] && rest[0] == LBRACE
    requires Stands(S, c,
      [Word(TRoute, "route")] + ([Name(r.verb)] + ([Token(TString, r.path)] + (Pen.Middleware(r.middleware) + rest))))
    ensures S.Check(c, TRoute) && !S.AtEnd(c)
    ensures
      var c1 := S.Consume(S.Advance(c), TIdent);
      var c2 := S.Consume(c1, TString);
      var c3 := S.ParseMiddleware(c2).1;
      && c1.previous.text == r.verb && c2.previous.text == r.path && S.ParseMiddleware(c2).0 == r.middleware &&
        Stands(S, c3, rest)
      && Past(c, [Word(TRoute, "route")] +
        ([Name(r.verb)] + ([Token(TString, r.path)] + (Pen.Middleware(r.middleware) + rest))))
         == Past(c3, rest)
  {
    hide Source.ParseMiddleware, Pen.Middleware, Stands, Past;
    var w, v, p, tail :=
      Word(TRoute, "route"), Name(r.verb), Token(TString, r.path), Pen.Middleware(r.middleware) + rest;
    OnToken(S, c, [w] + ([v] + ([p] + tail)));
    StandsFirst(S, c, w, [v] + ([p] + tail));
    var c1 := Past(c, [w]);
    StandsFirst(S, c1, v, [p] + tail);
    StandsFirst(S, Past(c1, [v]), p, tail);
    ReadsMiddleware(S, r.middleware, rest, Past(Past(c1, [v]), [p]));
  }

  lemma {:induction false} ReadsRoutes(S: Source, P: Pen, rs: seq<Route>, c: Cursor)
    requires (forall i :: 0 <= i < |rs| ==> WritableBlock(S, P, rs[i].body)) && S.On(c) &&
      Stands(S, c, P.Routes(rs) + [RBRACE])
    ensures
      var (rs', c1) := S.ParseRoutes(c);
      rs' == rs && S.Consume(c1, TRBrace) == Past(c, P.Routes(rs) + [RBRACE])
    decreases rs, 0
  {
    hide Source.ParseRoutes, Source.ParseMiddleware, Source.ParseBlock, Source.Consume, WritableBlock, Pen.Stmt,
         Pen.Routes, Pen.Middleware,
         Stands, Past;
    S.RoutesFirst(c);
    RoutesText(P, rs);
    if rs == [] {
      StandsOne(S, c, RBRACE);
      TakesClose(S, c, RBRACE);
    } else {
      var r := rs[0];
      var b, rest := P.Stmt(r.body), P.Routes(rs[1..]) + [RBRACE];
      BodyIsBlock(S, P, r.body);
      BlockText(P, r.body);
      ReadsRouteHead(S, r, b + rest, c);
      var c3 := S.ParseMiddleware(S.Consume(S.Consume(S.Advance(c), TIdent), TString)).1;
      StandsSplit(S, c3, b, rest);
      ReadsBlock(S, P, r.body, c3);
      ReadsRoutes(S, P, rs[1..], Past(c3, b));
      assert rs == [r] + rs[1..];
    }
  }

  lemma TakesClose(S: Source, c: Cursor, t: Token)
    requires S.On(c) && Stands(S, c, [t])
    ensures S.Consume(c, t.kind) == Past(c, [t])
  {
    StandsOne(S, c, t);
  }

  lemma ReadsMiddleware(S: Source, m: Option<string>, rest: seq<Token>, c: Cursor)
    requires S.On(c) && rest != [] && rest[0].kind != TLBracket && Stands(S, c, Pen.Middleware(m) + rest)
    ensures
      var (m', c1) := S.ParseMiddleware(c);
      m' == m && Stands(S, c1, rest) && Past(c, Pen.Middleware(m) + rest) == Past(c1, rest)
  {
    hide Stands, Past;
    if m.None? {
      assert Pen.Middleware(m) + rest == rest;
      StandsHead(S, c, rest);
    } else {
      var n := Name(m.value);
      assert Pen.Middleware(m) + rest == [LBRACKET] + ([n] + ([RBRACKET] + rest));
      StandsFirst(S, c, LBRACKET, [n] + ([RBRACKET] + rest));
      StandsFirst(S, Past(c, [LBRACKET]), n, [RBRACKET] + rest);
      StandsFirst(S, Past(Past(c, [LBRACKET]), [n]), RBRACKET, rest);
    }
  }

  lemma ReadsPort(S: Source, port: int, rest: seq<Token>, c: Cursor)
    requires S.On(c) && 0 <= port <= 0x7fff_ffff
    requires Stands(S, c, [Word(TOn, "on")] + ([Token(TInt, IntText(port))] + rest))
    ensures S.ParsePort(c) == (port, Past(Past(c, [Word(TOn, "on")]), [Token(TInt, IntText(port))]))
    ensures
      var c1 := S.ParsePort(c).1;
      Stands(S, c1, rest) && Past(c, [Word(TOn, "on")] + ([Token(TInt, IntText(port))] + rest)) == Past(c1, rest)
  {
    hide Stands, Past, IntText, ParseInt;
    var w, n := Word(TOn, "on"), Token(TInt, IntText(port));
    StandsFirst(S, c, w, [n] + rest);
    StandsFirst(S, Past(c, [w]), n, rest);
    IntTextReads(port);
  }

  lemma ServerText(P: Pen, s: Stmt)
    requires s.Server?
    ensures P.Stmt(s) == [Word(TServer, "server")] + ([Name(s.name)] +
      ([Word(TOn, "on")] + ([Token(TInt, IntText(s.port))] + ([LBRACE] + (P.Routes(s.routes) + [RBRACE])))))
  {
    hide Pen.Routes;
  }

  lemma ServerParts(S: Source, P: Pen, s: Stmt)
    requires s.Server? && Writable(S, P, s)
    ensures 0 <= s.port <= 0x7fff_ffff && forall i :: 0 <= i < |s.routes| ==> WritableBlock(S, P, s.routes[i].body)
  {
    hide WritableBlock;
  }

  lemma {:induction false} ReadsServer(S: Source, P: Pen, s: Stmt, c: Cursor)
    requires s.Server? && Writable(S, P, s) && S.On(c) && Stands(S, c, P.Stmt(s))
    ensures S.ParseStatement(c) == (s, Past(c, P.Stmt(s)))
    decreases s, 2
  {
    hide Source.ParseStatement, Source.ParsePort, Source.ParseRoutes, Writable, WritableBlock, Pen.Stmt, Pen.Routes,
         Stands, Past, IntText;
    S.MoreStatementCases(c);
    ServerText(P, s);
    ServerParts(S, P, s);
    var w, n := Word(TServer, "server"), Name(s.name);
    var tail := [LBRACE] + (P.Routes(s.routes) + [RBRACE]);
    var port := [Word(TOn, "on")] + ([Token(TInt, IntText(s.port))] + tail);
    StandsFirst(S, c, w, [n] + port);
    StandsFirst(S, Past(c, [w]), n, port);
    var c2 := Past(Past(c, [w]), [n]);
    ReadsPort(S, s.port, tail, c2);
    var c3 := S.ParsePort(c2).1;
    StandsFirst(S, c3, LBRACE, P.Routes(s.routes) + [RBRACE]);
    ReadsRoutes(S, P, s.routes, Past(c3, [LBRACE]));
  }

  // ----- all statements, lists and programs -----

  /** Reading a statement back. */
  lemma {:induction false} StmtReads(S: Source, P: Pen, s: Stmt, c: Cursor)
    requires Writable(S, P, s) && S.On(c) && Stands(S, c, P.Stmt(s)) && Ends(S, s, Past(c, P.Stmt(s)))
    ensures S.ParseStatement(c) == (s, Past(c, P.Stmt(s)))
    decreases s, 3
  {
    hide Source.ParseStatement, Source.ParseIf, Source.ParseFunction, WritableBlock, Readable, Pen.Expr, Pen.Stmts,
         Pen.Routes, Stands, Past,
         Pen.Params, Pen.TypeName;
    match s
    case Let(name, init) => ReadsLet(S, P, name, init, c);
    case If(_, _, _) =>
      IfText(P, s);
      StandsFirst(S, c, Word(TIf, "if"), P.Stmt(s)[1..]);
      S.StatementCases(c);
      ReadsIf(S, P, s, Past(c, [Word(TIf, "if")]));
    case While(_, _) => ReadsWhile(S, P, s, c);
    case For(_, _, _, _) => ReadsFor(S, P, s, c);
    case ForIn(_, _, _) => ReadsForIn(S, P, s, c);
    case Function(_, _, _, _) =>
      FunctionText(P, s);
      StandsFirst(S, c, Word(TFn, "fn"), P.Stmt(s)[1..]);
      S.StatementCases(c);
      ReadsFunction(S, P, s, Past(c, [Word(TFn, "fn")]));
    case Return(result) => ReadsReturn(S, P, result, c);
    case Print(e) => ReadsPrint(S, P, e, c);
    case ExprStmt(e) => ReadsExprStmt(S, P, e, c);
    case Import(name) => ReadsImport(S, P, name, c);
    case Class(_, _) => ReadsClass(S, P, s, c);
    case Server(_, _, _) => ReadsServer(S, P, s, c);
    case Respond(status, reply) => ReadsRespond(S, P, status, reply, c);
  }

  /** Between two statements of a list, nothing runs on. */
  lemma FirstEnds(S: Source, P: Pen, ss: seq<Stmt>, c: Cursor)
    requires WritableList(S, P, ss) && ss != [] && S.On(c) && Stands(S, c, P.Stmts(ss[1..]))
    requires Closes(S, Past(c, P.Stmts(ss[1..])))
    ensures Ends(S, ss[0], c)
  {
    hide Writable, Pen.Stmt, Stands, Past;
    if |ss| > 1 {
      StmtFirst(S, P, ss[1]);
      StandsHead(S, c, P.Stmts(ss[1..]));
    } else {
      NoTokens(c);
    }
  }

  lemma NoTokens(c: Cursor)
    ensures Past(c, []) == c
  {
  }

  /** Reading the statements of a block back. */
  lemma {:induction false} ReadsStmts(S: Source, P: Pen, ss: seq<Stmt>, c: Cursor)
    requires WritableList(S, P, ss) && S.On(c) && Stands(S, c, P.Stmts(ss)) && Closes(S, Past(c, P.Stmts(ss)))
    ensures S.ParseStatements(c) == (ss, Past(c, P.Stmts(ss)))
    decreases ss, 0
  {
    hide Source.ParseStatements, Source.ParseStatement, Writable, Pen.Stmt, Stands, Past;
    S.StatementsFirst(c);
    if ss == [] {
      NoTokens(c);
    } else {
      var a, b := P.Stmt(ss[0]), P.Stmts(ss[1..]);
      StandsSplit(S, c, a, b);
      FirstEnds(S, P, ss, Past(c, a));
      StmtReads(S, P, ss[0], c);
      ReadsStmts(S, P, ss[1..], Past(c, a));
      StmtFirst(S, P, ss[0]);
      StandsHead(S, c, a);
      OnToken(S, c, a);
      assert ss == [ss[0]] + ss[1..];
    }
  }

  lemma OnToken(S: Source, c: Cursor, ts: seq<Token>)
    requires Stands(S, c, ts) && ts != []
    ensures !S.AtEnd(c)
  {
  }

  lemma {:induction false} ReadsTop(S: Source, P: Pen, ss: seq<Stmt>, c: Cursor)
    requires WritableList(S, P, ss) && S.On(c) && !c.panic && Stands(S, c, P.Stmts(ss)) && S.AtEnd(Past(c, P.Stmts(ss)))
    ensures S.ParseTop(c) == (ss, Past(c, P.Stmts(ss)))
  {
    hide Source.ParseTop, Source.ParseStatement, Source.Synchronize, Writable, Pen.Stmt, Stands, Past;
    S.TopFirst(c);
    if ss == [] {
      NoTokens(c);
    } else {
      var a, b := P.Stmt(ss[0]), P.Stmts(ss[1..]);
      StandsSplit(S, c, a, b);
      FirstEnds(S, P, ss, Past(c, a));
      StmtReads(S, P, ss[0], c);
      StmtFirst(S, P, ss[0]);
      OnToken(S, c, a);
      KeepsFlags(c, a);
      ReadsTop(S, P, ss[1..], Past(c, a));
      assert ss == [ss[0]] + ss[1..];
    }
  }

  lemma KeepsFlags(c: Cursor, ts: seq<Token>)
    ensures Past(c, ts).panic == c.panic && Past(c, ts).hadError == c.hadError
    ensures Past(c, ts).pos == c.pos + |ts|
  {
  }

  /** The round trip of programs: what is written is read back whole, without an error. */
  lemma ProgramRoundTrip(S: Source, P: Pen, ss: seq<Stmt>)
    requires WritableList(S, P, ss) && S.tokens == P.Stmts(ss)
    ensures S.ParseProgram() == Some(ss)
  {
    hide Source.ParseTop, WritableList, Pen.Stmts, Past;
    KeepsFlags(Source.START, P.Stmts(ss));
    assert Stands(S, Source.START, P.Stmts(ss)) by {
      assert S.tokens[0..|S.tokens|] == S.tokens;
    }
    ReadsTop(S, P, ss, Source.START);
  }
}
