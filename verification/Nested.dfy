/** The exact condition for a whole tree: it is read back as written if and only if no
    statement runs into the next one in any of its lists, at any depth. */
module Nested {
  import opened Wrappers
  import opened Decimal
  import opened Ast
  import opened Tokens
  import opened Syntax
  import opened Printer
  import opened ExprRoundTrip
  import opened StmtRoundTrip
  import opened Separation

  // ----- texts and their separation -----

  /** The statement has a text, whether or not that is read back. */
  predicate Spelled(S: Source, P: Pen, s: Stmt)
    decreases s, 0
  {
    match s
    case Let(_, init) => init.None? || Readable(S, P, init.value)
    case If(cond, t, None) => Readable(S, P, cond) && SpelledBlock(S, P, t)
    case If(cond, t, Some(e)) =>
      Readable(S, P, cond) && SpelledBlock(S, P, t) && if e.If? then Spelled(S, P, e) else SpelledBlock(S, P, e)
    case While(cond, body) => Readable(S, P, cond) && SpelledBlock(S, P, body)
    case For(_, start, end, body) => Readable(S, P, start) && Readable(S, P, end) && SpelledBlock(S, P, body)
    case ForIn(_, iterable, body) => Readable(S, P, iterable) && SpelledBlock(S, P, body)
    case Block(_) => false
    case Function(_, _, _, body) => SpelledBlock(S, P, body)
    case Return(result) => result.None? || Readable(S, P, result.value)
    case Print(e) => Readable(S, P, e)
    case ExprStmt(e) => Readable(S, P, e)
    case Import(_) => true
    case Class(_, members) => forall i :: 0 <= i < |members| ==> members[i].Function? && Spelled(S, P, members[i])
    case Server(_, port, routes) =>
      0 <= port <= 0x7fff_ffff && forall i :: 0 <= i < |routes| ==> SpelledBlock(S, P, routes[i].body)
    case Respond(status, reply) => Readable(S, P, status) && Readable(S, P, reply)
  }

  predicate SpelledBlock(S: Source, P: Pen, s: Stmt)
    decreases s, 1
  {
    s.Block? && SpelledList(S, P, s.stmts)
  }

  predicate SpelledList(S: Source, P: Pen, ss: seq<Stmt>)
    decreases ss, 0
  {
    ss == [] || (Spelled(S, P, ss[0]) && SpelledList(S, P, ss[1..]))
  }

  /** In every list inside `s` no statement runs into the next one, and no status of a
      `respond` into its reply. */
  predicate Parted(P: Pen, s: Stmt)
    decreases s, 1
  {
    match s
    case If(_, t, e) => Parted(P, t) && (e.Some? ==> Parted(P, e.value))
    case While(_, body) => Parted(P, body)
    case For(_, _, _, body) => Parted(P, body)
    case ForIn(_, _, body) => Parted(P, body)
    case Block(ss) => PartedList(P, ss)
    case Function(_, _, _, body) => Parted(P, body)
    case Class(_, members) => forall i :: 0 <= i < |members| ==> Parted(P, members[i])
    case Server(_, _, routes) => forall i :: 0 <= i < |routes| ==> Parted(P, routes[i].body)
    case Respond(_, reply) => P.Expr(reply, 0) == [] || !Sticky(P.Expr(reply, 0)[0].kind)
    case _ => true
  }

  predicate PartedList(P: Pen, ss: seq<Stmt>)
    decreases ss, 0
  {
    ss == [] || (Parted(P, ss[0]) && (|ss| > 1 ==> Apart(P, ss[0], ss[1])) && PartedList(P, ss[1..]))
  }

  /** A statement can be read back when it has a text and its lists are apart. */
  lemma {:induction false} SpelledParted(S: Source, P: Pen, s: Stmt)
    ensures Writable(S, P, s) <==> Spelled(S, P, s) && Parted(P, s)
    decreases s, 0
  {
    hide Readable, Apart, Pen.Expr;
    match s
    case If(_, t, e) =>
      BlockParted(S, P, t);
      if e.Some? {
        BlockParted(S, P, e.value);
        SpelledParted(S, P, e.value);
      }
    case While(_, body) => BlockParted(S, P, body);
    case For(_, _, _, body) => BlockParted(S, P, body);
    case ForIn(_, _, body) => BlockParted(S, P, body);
    case Function(_, _, _, body) => BlockParted(S, P, body);
    case Class(_, members) =>
      forall i | 0 <= i < |members| ensures Writable(S, P, members[i]) <==>
        Spelled(S, P, members[i]) && Parted(P, members[i]) {
        SpelledParted(S, P, members[i]);
      }
    case Server(_, _, routes) =>
      forall i | 0 <= i < |routes|
        ensures WritableBlock(S, P, routes[i].body) <==> SpelledBlock(S, P, routes[i].body) && Parted(P, routes[i].body)
      {
        BlockParted(S, P, routes[i].body);
      }
    case Respond(_, reply) => ExprFirst(P, reply, 0);
    case _ =>
  }

  lemma {:induction false} BlockParted(S: Source, P: Pen, s: Stmt)
    ensures WritableBlock(S, P, s) <==> SpelledBlock(S, P, s) && Parted(P, s)
    decreases s, 1
  {
    if s.Block? {
      ListParted(S, P, s.stmts);
    }
  }

  lemma {:induction false} ListParted(S: Source, P: Pen, ss: seq<Stmt>)
    ensures WritableList(S, P, ss) <==> SpelledList(S, P, ss) && PartedList(P, ss)
    decreases ss, 0
  {
    hide Apart, Writable, Spelled, Parted;
    if ss != [] {
      SpelledParted(S, P, ss[0]);
      ListParted(S, P, ss[1..]);
    }
  }

  lemma SpelledNoBlock(S: Source, P: Pen, s: Stmt)
    requires Spelled(S, P, s)
    ensures !s.Block?
  {
  }

  // ----- what is read as written is apart inside -----

  lemma {:induction false} BlockForced(S: Source, P: Pen, b: Stmt, c: Cursor)
    requires S.On(c) && SpelledBlock(S, P, b) && Stands(S, c, P.Stmt(b)) && S.ParseBlock(c).0 == b
    ensures WritableBlock(S, P, b)
    decreases b, 1
  {
    hide Source.ParseStatements, SpelledList, WritableList, Pen.Stmts, Pen.Stmt, Stands, Past;
    BlockText(P, b);
    var ts := P.Stmts(b.stmts);
    StandsFirst(S, c, LBRACE, ts + [RBRACE]);
    ListForced(S, P, b.stmts, [RBRACE], Past(c, [LBRACE]));
  }

  lemma {:induction false} ListForced(S: Source, P: Pen, ss: seq<Stmt>, rest: seq<Token>, c: Cursor)
    requires S.On(c) && SpelledList(S, P, ss) && Stands(S, c, P.Stmts(ss) + rest) && S.ParseStatements(c).0 == ss
    ensures WritableList(S, P, ss)
    decreases ss, 0
  {
    hide Source.ParseStatements, Source.ParseStatement, Spelled, Writable, Pen.Stmts, Pen.Stmt, Stands, Past, Apart;
    if ss != [] {
      var s, a, b := ss[0], P.Stmt(ss[0]), P.Stmts(ss[1..]) + rest;
      StmtsText(P, ss);
      assert P.Stmts(ss) + rest == a + b;
      StandsSplit(S, c, a, b);
      S.StatementsFirst(c);
      StmtForced(S, P, s, c);
      if |ss| > 1 {
        StmtsText(P, ss[1..]);
        assert b == P.Stmt(ss[1]) + (P.Stmts(ss[1..][1..]) + rest);
        SpelledNoBlock(S, P, ss[1]);
        TopPair(S, P, s, ss[1], P.Stmts(ss[1..][1..]) + rest, c);
        ListForced(S, P, ss[1..], rest, Past(c, a));
      }
    }
  }

  lemma {:induction false} StmtForced(S: Source, P: Pen, s: Stmt, c: Cursor)
    requires S.On(c) && Spelled(S, P, s) && Stands(S, c, P.Stmt(s)) && S.ParseStatement(c).0 == s
    ensures Writable(S, P, s)
    decreases s, 3
  {
    hide Source.ParseStatement, Source.ParseIf, Source.ParseFunction, SpelledBlock, WritableBlock, Readable, Stands,
         Past,
         Pen.Expr, Pen.Stmts, Pen.Routes, Pen.Params, Pen.TypeName;
    match s
    case If(_, _, _) =>
      S.StatementCases(c);
      IfText(P, s);
      StandsFirst(S, c, Word(TIf, "if"), P.Stmt(s)[1..]);
      IfForced(S, P, s, Past(c, [Word(TIf, "if")]));
    case While(_, _) => WhileForced(S, P, s, c);
    case For(_, _, _, _) => ForForced(S, P, s, c);
    case ForIn(_, _, _) => ForInForced(S, P, s, c);
    case Function(_, _, _, _) =>
      S.StatementCases(c);
      FunctionText(P, s);
      StandsFirst(S, c, Word(TFn, "fn"), P.Stmt(s)[1..]);
      FunctionForced(S, P, s, Past(c, [Word(TFn, "fn")]));
    case Class(_, _) => ClassForced(S, P, s, c);
    case Server(_, _, _) => ServerForced(S, P, s, c);
    case Respond(status, reply) => RespondForced(S, P, status, reply, c);
    case _ =>
  }

  lemma SpelledLoop(S: Source, P: Pen, s: Stmt, e: Expr)
    requires (s.While? && e == s.cond) || (s.ForIn? && e == s.iterable)
    ensures Spelled(S, P, s) ==> Readable(S, P, e) && SpelledBlock(S, P, s.body) && s.body.Block?
    ensures Readable(S, P, e) && WritableBlock(S, P, s.body) ==> Writable(S, P, s)
  {
    hide SpelledList, WritableBlock;
  }

  lemma WhileText(P: Pen, s: Stmt)
    requires s.While?
    ensures P.Stmt(s) == [Word(TWhile, "while")] + (P.Expr(s.cond, 0) + P.Stmt(s.body))
  {
    hide Pen.Expr;
  }

  lemma ForInText(P: Pen, s: Stmt)
    requires s.ForIn?
    ensures P.Stmt(s) ==
      [Word(TFor, "for")] + ([Name(s.name), Word(TIn, "in")] + (P.Expr(s.iterable, 0) + P.Stmt(s.body)))
  {
    hide Pen.Expr;
  }

  lemma {:induction false} WhileForced(S: Source, P: Pen, s: Stmt, c: Cursor)
    requires s.While? && Spelled(S, P, s) && S.On(c) && Stands(S, c, P.Stmt(s)) && S.ParseStatement(c).0 == s
    ensures Writable(S, P, s)
    decreases s, 2
  {
    hide Source.ParseStatement, Source.ParseExpression, Source.ParseBlock, Spelled, Writable, SpelledBlock,
         WritableBlock,
         Pen.Expr, Pen.Stmt, Readable, Stands, Past;
    S.StatementCases(c);
    SpelledLoop(S, P, s, s.cond);
    var t, a, b := Word(TWhile, "while"), P.Expr(s.cond, 0), P.Stmt(s.body);
    WhileText(P, s);
    StandsFirst(S, c, t, a + b);
    ReadsHead(S, P, s.cond, s.body, Past(c, [t]));
    BlockForced(S, P, s.body, Past(Past(c, [t]), a));
  }

  lemma SpelledFor(S: Source, P: Pen, s: Stmt)
    requires s.For?
    ensures Spelled(S, P, s) ==>
      Readable(S, P, s.start) && Readable(S, P, s.end) && SpelledBlock(S, P, s.body) && s.body.Block?
    ensures Readable(S, P, s.start) && Readable(S, P, s.end) && WritableBlock(S, P, s.body) ==> Writable(S, P, s)
  {
    hide SpelledList, WritableBlock;
  }

  lemma {:induction false} ForForced(S: Source, P: Pen, s: Stmt, c: Cursor)
    requires s.For? && Spelled(S, P, s) && S.On(c) && Stands(S, c, P.Stmt(s)) && S.ParseStatement(c).0 == s
    ensures Writable(S, P, s)
    decreases s, 2
  {
    hide Source.ParseStatement, Source.ParseExpression, Source.ParseBlock, Spelled, Writable, SpelledBlock,
         WritableBlock,
         Pen.Expr, Pen.Stmt, Readable, Stands, Past, Source.Consume, TokenLevel;
    S.StatementCases(c);
    SpelledFor(S, P, s);
    RangeToken();
    var t, a, z, b := Word(TFor, "for"), P.Expr(s.start, 0), P.Expr(s.end, 0), P.Stmt(s.body);
    var rest := a + ([DOT_DOT] + (z + b));
    ForText(P, s);
    StandsFirst(S, c, t, [Name(s.name), Word(TIn, "in")] + rest);
    ReadsForHead(S, s.name, rest, Past(c, [t]));
    var c1 := S.Consume(S.Consume(Past(c, [t]), TIdent), TIn);
    StandsSplit(S, c1, a, [DOT_DOT] + (z + b));
    var c2 := Past(c1, a);
    StandsFirst(S, c2, DOT_DOT, z + b);
    ExprReads(S, P, s.start, c1);
    var c3 := Past(c2, [DOT_DOT]);
    ReadsHead(S, P, s.end, s.body, c3);
    BlockForced(S, P, s.body, Past(c3, z));
  }

  lemma {:induction false} ForInForced(S: Source, P: Pen, s: Stmt, c: Cursor)
    requires s.ForIn? && Spelled(S, P, s) && S.On(c) && Stands(S, c, P.Stmt(s)) && S.ParseStatement(c).0 == s
    ensures Writable(S, P, s)
    decreases s, 2
  {
    hide Source.ParseStatement, Source.ParseExpression, Source.ParseBlock, Spelled, Writable, SpelledBlock,
         WritableBlock,
         Pen.Expr, Pen.Stmt, Readable, Stands, Past, Source.Consume;
    S.StatementCases(c);
    SpelledLoop(S, P, s, s.iterable);
    var t, a, b := Word(TFor, "for"), P.Expr(s.iterable, 0), P.Stmt(s.body);
    ForInText(P, s);
    StandsFirst(S, c, t, [Name(s.name), Word(TIn, "in")] + (a + b));
    ReadsForHead(S, s.name, a + b, Past(c, [t]));
    var c1 := S.Consume(S.Consume(Past(c, [t]), TIdent), TIn);
    ReadsHead(S, P, s.iterable, s.body, c1);
    BlockForced(S, P, s.body, Past(c1, a));
  }

  /** An `if`, its keyword already taken. */
  lemma {:induction false} IfForced(S: Source, P: Pen, s: Stmt, c: Cursor)
    requires s.If? && Spelled(S, P, s) && S.On(c) && Stands(S, c, P.Stmt(s)[1..]) && S.ParseIf(c).0 == s
    ensures Writable(S, P, s)
    decreases s, 2
  {
    hide Source.ParseExpression, Source.ParseBlock, Source.ParseIf, SpelledList, WritableBlock, Pen.Expr, Readable,
         Stands,
         Past, ElsePart;
    IfStep(S, c);
    var a, b := P.Expr(s.cond, 0), P.Stmt(s.thenBranch);
    if s.elseBranch.None? {
      assert P.Stmt(s)[1..] == a + b;
      ReadsHead(S, P, s.cond, s.thenBranch, c);
      BlockForced(S, P, s.thenBranch, Past(c, a));
    } else {
      IfElseText(P, s);
      StandsSplit(S, c, a + b, [Word(TElse, "else")] + P.Stmt(s.elseBranch.value));
      ReadsHead(S, P, s.cond, s.thenBranch, c);
      var c1 := Past(c, a);
      BlockForced(S, P, s.thenBranch, c1);
      ReadsBlock(S, P, s.thenBranch, c1);
      ElseForced(S, P, s, Past(c1, b));
    }
  }

  lemma {:induction false} ElseForced(S: Source, P: Pen, s: Stmt, c: Cursor)
    requires s.If? && s.elseBranch.Some? && Spelled(S, P, s) && S.On(c)
    requires Stands(S, c, [Word(TElse, "else")] + P.Stmt(s.elseBranch.value)) && ElsePart(S, c).0 == s.elseBranch
    ensures var e := s.elseBranch.value; if e.If? then Writable(S, P, e) else WritableBlock(S, P, e)
    decreases s, 1
  {
    hide Source.ParseExpression, Source.ParseBlock, Source.ParseIf, SpelledList, WritableBlock, Writable, Pen.Expr,
         Pen.Stmt,
         Readable, Stands, Past;
    var t, e := Word(TElse, "else"), s.elseBranch.value;
    StandsFirst(S, c, t, P.Stmt(e));
    var c1 := Past(c, [t]);
    if e.If? {
      IfText(P, e);
      var i, rest := Word(TIf, "if"), P.Stmt(e)[1..];
      StandsFirst(S, c1, i, rest);
      IfForced(S, P, e, Past(c1, [i]));
    } else {
      BlockText(P, e);
      StandsHead(S, c1, P.Stmt(e));
      BlockForced(S, P, e, c1);
    }
  }

  /** A function, its keyword already taken. */
  lemma {:induction false} FunctionForced(S: Source, P: Pen, s: Stmt, c: Cursor)
    requires s.Function? && Spelled(S, P, s) && S.On(c) && Stands(S, c, P.Stmt(s)[1..]) && S.ParseFunction(c).0 == s
    ensures Writable(S, P, s)
    decreases s, 2
  {
    hide Source.ParseFunction, Source.ParseTypeName, Source.ParseBlock, ParamList, SpelledList, WritableBlock, Pen.Stmt,
         Pen.Params, Pen.TypeName, Stands, Past;
    FunctionStep(S, c);
    FunctionText(P, s);
    var n, t, b := Name(s.name), Pen.TypeName(s.returnType), P.Stmt(s.body);
    var tail := Pen.Params(s.params) + ([RPAREN] + (t + b));
    StandsFirst(S, c, n, [LPAREN] + tail);
    StandsFirst(S, Past(c, [n]), LPAREN, tail);
    var c2 := Past(Past(c, [n]), [LPAREN]);
    ReadsParamList(S, s.params, t + b, c2);
    var c3 := S.Consume(ParamList(S, c2).1, TRParen);
    BlockText(P, s.body);
    ReadsTypeName(S, s.returnType, b, c3);
    BlockForced(S, P, s.body, S.ParseTypeName(c3).1);
  }

  predicate SpelledMethods(S: Source, P: Pen, ms: seq<Stmt>) {
    forall i :: 0 <= i < |ms| ==> ms[i].Function? && Spelled(S, P, ms[i])
  }

  lemma NoMethods(S: Source, P: Pen)
    ensures Methods(S, P, [])
  {
  }

  lemma MethodsFirst(S: Source, P: Pen, ms: seq<Stmt>)
    requires ms != []
    ensures SpelledMethods(S, P, ms) ==> ms[0].Function? && Spelled(S, P, ms[0]) && SpelledMethods(S, P, ms[1..])
    ensures ms[0].Function? && Writable(S, P, ms[0]) && Methods(S, P, ms[1..]) ==> Methods(S, P, ms)
  {
    hide Spelled, Writable;
    assert ms == [ms[0]] + ms[1..];
  }

  lemma {:induction false} MembersForced(S: Source, P: Pen, ms: seq<Stmt>, c: Cursor)
    requires SpelledMethods(S, P, ms) && S.On(c) && Stands(S, c, P.Stmts(ms) + [RBRACE]) && S.ParseMembers(c).0 == ms
    ensures Methods(S, P, ms)
    decreases ms, 0
  {
    hide Source.ParseMembers, Source.ParseFunction, Writable, Spelled, SpelledMethods, Methods, Pen.Stmt, Pen.Stmts,
         Stands,
         Past;
    if ms == [] {
      NoMethods(S, P);
    } else {
      MethodsFirst(S, P, ms);
      StmtsText(P, ms);
      MembersStep(S, c);
      FunctionText(P, ms[0]);
      var w, f, rest := Word(TFn, "fn"), P.Stmt(ms[0])[1..], P.Stmts(ms[1..]) + [RBRACE];
      assert P.Stmts(ms) + [RBRACE] == [w] + (f + rest);
      OnToken(S, c, P.Stmts(ms) + [RBRACE]);
      StandsFirst(S, c, w, f + rest);
      var c1 := Past(c, [w]);
      StandsSplit(S, c1, f, rest);
      FunctionForced(S, P, ms[0], c1);
      ReadsFunction(S, P, ms[0], c1);
      MembersForced(S, P, ms[1..], Past(c1, f));
    }
  }

  lemma SpelledClass(S: Source, P: Pen, s: Stmt)
    requires s.Class? && Spelled(S, P, s)
    ensures P.Stmt(s) == [Word(TClass, "class")] + ([Name(s.name)] + ([LBRACE] + (P.Stmts(s.members) + [RBRACE])))
    ensures SpelledMethods(S, P, s.members) && (Methods(S, P, s.members) ==> Writable(S, P, s))
  {
    hide Pen.Stmts, SpelledBlock, WritableBlock, Readable;
  }

  lemma ClassStep(S: Source, c: Cursor)
    requires S.On(c)
    ensures
      var c1 := S.Consume(c, TIdent);
      S.ParseClass(c).0 == Class(c1.previous.text, S.ParseMembers(S.Consume(c1, TLBrace)).0)
  {
    hide Source.ParseMembers, Source.Consume;
  }

  lemma {:induction false} ClassForced(S: Source, P: Pen, s: Stmt, c: Cursor)
    requires s.Class? && Spelled(S, P, s) && S.On(c) && Stands(S, c, P.Stmt(s)) && S.ParseStatement(c).0 == s
    ensures Writable(S, P, s)
    decreases s, 2
  {
    hide Source.ParseStatement, Source.ParseMembers, Source.ParseClass, Pen.Stmt, Pen.Stmts, Stands, Past, Spelled,
         Writable,
         SpelledMethods, Methods;
    S.MoreStatementCases(c);
    SpelledClass(S, P, s);
    var w, n, tail := Word(TClass, "class"), Name(s.name), P.Stmts(s.members) + [RBRACE];
    StandsFirst(S, c, w, [n] + ([LBRACE] + tail));
    StandsFirst(S, Past(c, [w]), n, [LBRACE] + tail);
    var c2 := Past(Past(c, [w]), [n]);
    StandsFirst(S, c2, LBRACE, tail);
    ClassStep(S, Past(c, [w]));
    MembersForced(S, P, s.members, Past(c2, [LBRACE]));
  }

  predicate SpelledRoutes(S: Source, P: Pen, rs: seq<Route>) {
    forall i :: 0 <= i < |rs| ==> SpelledBlock(S, P, rs[i].body)
  }

  predicate WritableRoutes(S: Source, P: Pen, rs: seq<Route>) {
    forall i :: 0 <= i < |rs| ==> WritableBlock(S, P, rs[i].body)
  }

  lemma NoRoutes(S: Source, P: Pen)
    ensures WritableRoutes(S, P, [])
  {
  }

  lemma FirstRoute(S: Source, P: Pen, rs: seq<Route>)
    requires rs != []
    ensures SpelledRoutes(S, P, rs) ==> SpelledBlock(S, P, rs[0].body) && SpelledRoutes(S, P, rs[1..])
    ensures WritableBlock(S, P, rs[0].body) && WritableRoutes(S, P, rs[1..]) ==> WritableRoutes(S, P, rs)
  {
    hide SpelledBlock, WritableBlock;
    assert rs == [rs[0]] + rs[1..];
  }

  lemma {:induction false} RoutesForced(S: Source, P: Pen, rs: seq<Route>, c: Cursor)
    requires SpelledRoutes(S, P, rs) && S.On(c) && Stands(S, c, P.Routes(rs) + [RBRACE]) && S.ParseRoutes(c).0 == rs
    ensures WritableRoutes(S, P, rs)
    decreases rs, 0
  {
    hide Source.ParseRoutes, Source.ParseMiddleware, Source.ParseBlock, Source.Consume, SpelledList, WritableBlock,
         SpelledRoutes, WritableRoutes, Pen.Stmt, Pen.Routes, Pen.Middleware, Stands, Past;
    if rs == [] {
      NoRoutes(S, P);
    } else {
      FirstRoute(S, P, rs);
      S.RoutesFirst(c);
      RoutesText(P, rs);
      var r := rs[0];
      var b, rest := P.Stmt(r.body), P.Routes(rs[1..]) + [RBRACE];
      BlockText(P, r.body);
      ReadsRouteHead(S, r, b + rest, c);
      var c3 := S.ParseMiddleware(S.Consume(S.Consume(S.Advance(c), TIdent), TString)).1;
      StandsSplit(S, c3, b, rest);
      BlockForced(S, P, r.body, c3);
      ReadsBlock(S, P, r.body, c3);
      RoutesForced(S, P, rs[1..], Past(c3, b));
    }
  }

  lemma SpelledServer(S: Source, P: Pen, s: Stmt)
    requires s.Server? && Spelled(S, P, s)
    ensures 0 <= s.port <= 0x7fff_ffff && SpelledRoutes(S, P, s.routes)
    ensures WritableRoutes(S, P, s.routes) ==> Writable(S, P, s)
  {
    hide SpelledBlock, WritableBlock;
  }

  lemma ServerStep(S: Source, c: Cursor)
    requires S.On(c)
    ensures
      var c1 := S.Consume(c, TIdent);
      var (port, c2) := S.ParsePort(c1);
      S.ParseServer(c).0 == Server(c1.previous.text, port, S.ParseRoutes(S.Consume(c2, TLBrace)).0)
  {
    hide Source.ParseRoutes, Source.ParsePort, Source.Consume;
  }

  lemma {:induction false} ServerForced(S: Source, P: Pen, s: Stmt, c: Cursor)
    requires s.Server? && Spelled(S, P, s) && S.On(c) && Stands(S, c, P.Stmt(s)) && S.ParseStatement(c).0 == s
    ensures Writable(S, P, s)
    decreases s, 2
  {
    hide Source.ParseStatement, Source.ParsePort, Source.ParseRoutes, Source.ParseServer, Spelled, Writable,
         SpelledRoutes,
         WritableRoutes, Pen.Stmt, Pen.Routes, Stands, Past, IntText;
    S.MoreStatementCases(c);
    ServerText(P, s);
    SpelledServer(S, P, s);
    var w, n := Word(TServer, "server"), Name(s.name);
    var tail := [LBRACE] + (P.Routes(s.routes) + [RBRACE]);
    var port := [Word(TOn, "on")] + ([Token(TInt, IntText(s.port))] + tail);
    StandsFirst(S, c, w, [n] + port);
    StandsFirst(S, Past(c, [w]), n, port);
    var c2 := Past(Past(c, [w]), [n]);
    ReadsPort(S, s.port, tail, c2);
    var c3 := S.ParsePort(c2).1;
    StandsFirst(S, c3, LBRACE, P.Routes(s.routes) + [RBRACE]);
    ServerStep(S, Past(c, [w]));
    RoutesForced(S, P, s.routes, Past(c3, [LBRACE]));
  }

  lemma RespondForced(S: Source, P: Pen, status: Expr, reply: Expr, c: Cursor)
    requires S.On(c) && Stands(S, c, P.Stmt(Respond(status, reply))) && Readable(S, P, status) && Readable(S, P, reply)
    requires S.ParseStatement(c).0 == Respond(status, reply)
    ensures P.Expr(reply, 0) != [] && !Sticky(P.Expr(reply, 0)[0].kind)
  {
    hide Source.ParseStatement, Source.ParseExpression, Pen.Expr, Readable, Stands, Past;
    S.PlainStatementCases(c);
    var t, a, b := Word(TRespond, "respond"), P.Expr(status, 0), P.Expr(reply, 0);
    assert P.Stmt(Respond(status, reply)) == [t] + (a + b);
    StandsFirst(S, c, t, a + b);
    var c1 := Past(c, [t]);
    StandsSplit(S, c1, a, b);
    ExprFirst(P, reply, 0);
    StandsHead(S, Past(c1, a), b);
    StickyStarts(b[0].kind);
    OnToken(S, Past(c1, a), b);
    if Sticky(b[0].kind) {
      OverreadsExpr(S, P, status, c1);
    }
  }

  // ----- programs -----

  lemma {:induction false} TopForced(S: Source, P: Pen, ss: seq<Stmt>, c: Cursor)
    requires SpelledList(S, P, ss) && S.On(c) && !c.panic && Stands(S, c, P.Stmts(ss)) && S.ParseTop(c).0 == ss
    ensures WritableList(S, P, ss)
    decreases ss
  {
    hide Source.ParseTop, Source.ParseStatement, Source.Synchronize, Spelled, Writable, Pen.Stmt, Pen.Stmts, Stands,
         Past, Apart;
    if ss != [] {
      var s, a, b := ss[0], P.Stmt(ss[0]), P.Stmts(ss[1..]);
      StmtsText(P, ss);
      StandsSplit(S, c, a, b);
      S.TopFirst(c);
      StmtForced(S, P, s, c);
      if |ss| > 1 {
        StmtsText(P, ss[1..]);
        SpelledNoBlock(S, P, ss[1]);
        TopPair(S, P, s, ss[1], P.Stmts(ss[1..][1..]), c);
        KeepsFlags(c, a);
        TopForced(S, P, ss[1..], Past(c, a));
      }
    }
  }

  /** A program with a text is read back as written if and only if in none of its lists, at
      any depth, a statement is a bare return in front of another one, or ends in an
      expression before one that starts with `(`, `[` or `-`, and no reply of a `respond`
      starts like that. */
  lemma RoundTripIffParted(S: Source, P: Pen, ss: seq<Stmt>)
    requires SpelledList(S, P, ss) && S.tokens == P.Stmts(ss)
    ensures S.ParseProgram() == Some(ss) <==> PartedList(P, ss)
  {
    hide Source.ParseTop, WritableList, SpelledList, PartedList, Pen.Stmts, Past;
    ListParted(S, P, ss);
    if PartedList(P, ss) {
      ProgramRoundTrip(S, P, ss);
    }
    if S.ParseProgram() == Some(ss) {
      assert S.tokens[0..|S.tokens|] == S.tokens;
      TopForced(S, P, ss, Source.START);
    }
  }
}
