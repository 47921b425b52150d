/** From trees to source text and back: lexer and parser together. */
module SourceRoundTrip {
  import opened Wrappers
  import opened Decimal
  import opened Values
  import opened Ast
  import opened Tokens
  import opened Syntax
  import opened Printer
  import opened ExprRoundTrip
  import opened StmtRoundTrip
  import opened Lexing
  import L = LexRoundTrip

  predicate IsName(s: string) {
    L.WordShape(s) && KindOf(s) == TIdent
  }

  predicate IsOptionalName(s: Option<string>) {
    s.Some? ==> IsName(s.value)
  }

  /** Names, strings and floats can be spelled. */
  predicate Spellable(P: Pen, e: Expr) {
    match e
    case FloatLit(f) => L.FloatShape(P.text(f))
    case StringLit(s) => L.BodyShape(s)
    case Ident(name) => IsName(name)
    case Binary(_, l, r) => Spellable(P, l) && Spellable(P, r)
    case Unary(_, operand) => Spellable(P, operand)
    case Call(callee, args) => Spellable(P, callee) && forall i :: 0 <= i < |args| ==> Spellable(P, args[i])
    case Dot(base, field) => Spellable(P, base) && IsName(field)
    case Index(base, i) => Spellable(P, base) && Spellable(P, i)
    case ArrayLit(es) => forall i :: 0 <= i < |es| ==> Spellable(P, es[i])
    case Assign(target, source) => Spellable(P, target) && Spellable(P, source)
    case _ => true
  }

  predicate SpellableStmt(P: Pen, s: Stmt) {
    match s
    case Let(name, init) => IsName(name) && (init.Some? ==> Spellable(P, init.value))
    case If(cond, t, e) => Spellable(P, cond) && SpellableStmt(P, t) && (e.Some? ==> SpellableStmt(P, e.value))
    case While(cond, body) => Spellable(P, cond) && SpellableStmt(P, body)
    case For(name, start, end, body) => IsName(name) && Spellable(P, start) && Spellable(P, end) &&
      SpellableStmt(P, body)
    case ForIn(name, iterable, body) => IsName(name) && Spellable(P, iterable) && SpellableStmt(P, body)
    case Block(ss) => forall i :: 0 <= i < |ss| ==> SpellableStmt(P, ss[i])
    case Function(name, params, returnType, body) =>
      IsName(name) && SpellableParams(params) && IsOptionalName(returnType) && SpellableStmt(P, body)
    case Return(result) => result.Some? ==> Spellable(P, result.value)
    case Print(e) => Spellable(P, e)
    case ExprStmt(e) => Spellable(P, e)
    case Import(name) => IsName(name)
    case Class(name, members) => IsName(name) && forall i :: 0 <= i < |members| ==> SpellableStmt(P, members[i])
    case Server(name, _, routes) =>
      IsName(name) && forall i :: 0 <= i < |routes| ==>
        IsName(routes[i].verb) && L.BodyShape(routes[i].path) && IsOptionalName(routes[i].middleware)
        && SpellableStmt(P, routes[i].body)
    case Respond(status, reply) => Spellable(P, status) && Spellable(P, reply)
  }

  predicate SpellableParams(ps: seq<Param>) {
    forall i :: 0 <= i < |ps| ==> IsName(ps[i].name) && IsOptionalName(ps[i].typeName)
  }

  /** Every token can stand in a text. */
  ghost predicate Proper(ts: seq<Token>) {
    forall i :: 0 <= i < |ts| ==> L.Writable(ts[i])
  }

  // ----- the fixed tokens -----

  lemma KeywordShape(i: nat)
    requires i < KEYWORD_COUNT
    ensures L.WordShape(Spelling(i)) && Meaning(i) !in {TInt, TFloat}
  {
  }

  lemma KeywordProper(i: nat)
    requires i < KEYWORD_COUNT
    ensures L.Writable(Token(Meaning(i), Spelling(i)))
  {
    hide Spelling, Meaning, KindOf, L.WordShape, L.SymbolText;
    KeywordKind(i);
    KeywordShape(i);
  }

  lemma StatementWords()
    ensures L.Writable(Word(TLet, "let")) && L.Writable(Word(TIf, "if")) && L.Writable(Word(TElse, "else"))
    ensures L.Writable(Word(TReturn, "return")) && L.Writable(Word(TPrint, "print"))
  {
    hide L.Writable, KindOf;
    KeywordProper(0);
    KeywordProper(2);
    KeywordProper(3);
    KeywordProper(4);
    KeywordProper(13);
  }

  lemma LoopWords()
    ensures L.Writable(Word(TFor, "for")) && L.Writable(Word(TWhile, "while")) && L.Writable(Word(TIn, "in"))
  {
    hide L.Writable, KindOf;
    KeywordProper(5);
    KeywordProper(6);
    KeywordProper(7);
  }

  lemma DeclarationWords()
    ensures L.Writable(Word(TImport, "import")) && L.Writable(Word(TClass, "class")) && L.Writable(Word(TFn, "fn"))
  {
    hide L.Writable, KindOf;
    KeywordProper(1);
    KeywordProper(8);
    KeywordProper(14);
  }

  lemma ServerWords()
    ensures L.Writable(Word(TServer, "server")) && L.Writable(Word(TOn, "on"))
    ensures L.Writable(Word(TRoute, "route")) && L.Writable(Word(TRespond, "respond"))
  {
    hide L.Writable, KindOf;
    KeywordProper(15);
    KeywordProper(16);
    KeywordProper(17);
    KeywordProper(18);
  }

  lemma ExpressionWords()
    ensures L.Writable(Word(TTrue, "true")) && L.Writable(Word(TFalse, "false")) && L.Writable(Word(TNil, "nil"))
    ensures L.Writable(Word(TNot, "not")) && L.Writable(Word(TAnd, "and")) && L.Writable(Word(TOr, "or"))
  {
    hide L.Writable, KindOf;
    KeywordProper(10);
    KeywordProper(11);
    KeywordProper(12);
    KeywordProper(24);
    KeywordProper(25);
    KeywordProper(26);
  }

  lemma SymbolProper(t: Token)
    requires L.SymbolText(t.kind) == Some(t.text)
    ensures L.Writable(t)
  {
    hide KindOf, L.WordShape;
  }

  lemma BracketsProper()
    ensures L.Writable(LPAREN) && L.Writable(RPAREN) && L.Writable(LBRACKET) && L.Writable(RBRACKET)
  {
    hide L.Writable;
    SymbolProper(LPAREN);
    SymbolProper(RPAREN);
    SymbolProper(LBRACKET);
    SymbolProper(RBRACKET);
  }

  lemma PointsProper()
    ensures L.Writable(COMMA) && L.Writable(DOT) && L.Writable(DOT_DOT)
  {
    hide L.Writable;
    SymbolProper(COMMA);
    SymbolProper(DOT);
    SymbolProper(DOT_DOT);
  }

  lemma BracesProper()
    ensures L.Writable(LBRACE) && L.Writable(RBRACE) && L.Writable(ASSIGN)
  {
    hide L.Writable;
    SymbolProper(LBRACE);
    SymbolProper(RBRACE);
    SymbolProper(ASSIGN);
  }

  lemma SymbolsProper()
    ensures L.Writable(LPAREN) && L.Writable(RPAREN) && L.Writable(LBRACKET) && L.Writable(RBRACKET)
    ensures L.Writable(LBRACE) && L.Writable(RBRACE) && L.Writable(COMMA) && L.Writable(DOT) && L.Writable(DOT_DOT)
    ensures L.Writable(ASSIGN)
  {
    hide L.Writable;
    BracketsProper();
    PointsProper();
    BracesProper();
  }

  lemma OperatorProper(op: BinOp)
    ensures L.Writable(OpToken(op))
  {
    hide L.Writable;
    if op == And || op == Or {
      ExpressionWords();
    } else {
      SymbolProper(OpToken(op));
    }
  }

  lemma PrefixProper(op: UnOp)
    ensures L.Writable(UnOpToken(op))
  {
    hide L.Writable;
    if op == Not {
      ExpressionWords();
    } else {
      SymbolProper(UnOpToken(op));
    }
  }

  lemma NameProper(s: string)
    requires IsName(s)
    ensures L.Writable(Name(s))
  {
    hide KindOf, L.WordShape;
  }

  lemma IntProper(n: int)
    requires n >= 0
    ensures L.Writable(Token(TInt, IntText(n)))
  {
  }

  // ----- expressions -----

  lemma {:induction false} ExprProper(S: Source, P: Pen, e: Expr, m: nat)
    requires Spellable(P, e) && Readable(S, P, e)
    ensures Proper(P.Expr(e, m))
    decreases e, 1
  {
    hide L.Writable;
    BareProper(S, P, e);
    SymbolsProper();
  }

  lemma {:induction false} BareProper(S: Source, P: Pen, e: Expr)
    requires Spellable(P, e) && Readable(S, P, e)
    ensures Proper(P.Bare(e))
    decreases e, 0
  {
    hide L.Writable, IsName, Pen.Expr, Pen.List;
    SymbolsProper();
    match e
    case IntLit(n) => IntProper(n);
    case FloatLit(f) => FloatProper(P.text(f));
    case StringLit(s) => StringProper(s);
    case BoolLit(_) => ExpressionWords();
    case NilLit => ExpressionWords();
    case Ident(name) => NameProper(name);
    case Binary(op, l, r) =>
      ExprProper(S, P, l, OpLevel(op));
      ExprProper(S, P, r, OpLevel(op) + 1);
      OperatorProper(op);
    case Unary(op, operand) =>
      ExprProper(S, P, operand, 7);
      PrefixProper(op);
    case Call(callee, args) =>
      ExprProper(S, P, callee, 8);
      ListProper(S, P, args);
    case Dot(base, field) =>
      ExprProper(S, P, base, 8);
      NameProper(field);
    case Index(base, i) =>
      ExprProper(S, P, base, 8);
      ExprProper(S, P, i, 0);
    case ArrayLit(es) => ListProper(S, P, es);
    case Assign(target, source) =>
      ExprProper(S, P, target, 1);
      ExprProper(S, P, source, 0);
  }

  lemma FloatProper(s: string)
    requires L.FloatShape(s)
    ensures L.Writable(Token(TFloat, s))
  {
  }

  lemma StringProper(s: string)
    requires L.BodyShape(s)
    ensures L.Writable(Token(TString, s))
  {
  }

  lemma {:induction false} ListProper(S: Source, P: Pen, es: seq<Expr>)
    requires forall i :: 0 <= i < |es| ==> Spellable(P, es[i]) && Readable(S, P, es[i])
    ensures Proper(P.List(es))
    decreases es, 0
  {
    hide L.Writable, Pen.Expr, Spellable, Readable;
    if es != [] {
      SymbolsProper();
      ExprProper(S, P, es[0], 0);
      if |es| > 1 {
        ListProper(S, P, es[1..]);
      }
    }
  }

  // ----- statements -----

  lemma {:induction false} ParamsProper(ps: seq<Param>)
    requires SpellableParams(ps)
    ensures Proper(Pen.Params(ps))
  {
    hide L.Writable, IsName;
    if ps != [] {
      SymbolsProper();
      NameProper(ps[0].name);
      TypeNameProper(ps[0].typeName);
      if |ps| > 1 {
        ParamsProper(ps[1..]);
      }
    }
  }

  lemma TypeNameProper(t: Option<string>)
    requires IsOptionalName(t)
    ensures Proper(Pen.TypeName(t))
  {
    hide L.Writable, IsName;
    if t.Some? {
      NameProper(t.value);
    }
  }

  lemma MiddlewareProper(m: Option<string>)
    requires IsOptionalName(m)
    ensures Proper(Pen.Middleware(m))
  {
    hide L.Writable, IsName;
    if m.Some? {
      SymbolsProper();
      NameProper(m.value);
    }
  }

  lemma {:induction false} StmtProper(S: Source, P: Pen, s: Stmt)
    requires SpellableStmt(P, s) && (Writable(S, P, s) || WritableBlock(S, P, s))
    ensures Proper(P.Stmt(s))
    decreases s, 1
  {
    hide L.Writable, IsName, Spellable, Readable, Pen.Expr, Pen.Stmts, Pen.Routes, WritableList, Proper;
    StatementWords();
    SymbolsProper();
    match s
    case Let(name, init) => LetProper(S, P, name, init);
    case If(cond, t, e) => IfProper(S, P, s);
    case While(cond, body) => LoopProper(S, P, s);
    case For(name, start, end, body) => LoopProper(S, P, s);
    case ForIn(name, iterable, body) => LoopProper(S, P, s);
    case Block(ss) => BlockProper(S, P, s);
    case Function(_, _, _, _) => FunctionProper(S, P, s);
    case Return(result) => SimpleProper(S, P, s);
    case Print(e) => SimpleProper(S, P, s);
    case ExprStmt(e) => SimpleProper(S, P, s);
    case Import(name) => SimpleProper(S, P, s);
    case Class(name, members) => ClassProper(S, P, s);
    case Server(_, _, _) => ServerProper(S, P, s);
    case Respond(status, reply) => SimpleProper(S, P, s);
  }

  lemma LetProper(S: Source, P: Pen, name: string, init: Option<Expr>)
    requires IsName(name) && (init.Some? ==> Spellable(P, init.value) && Readable(S, P, init.value))
    ensures Proper(P.Stmt(Let(name, init)))
  {
    hide L.Writable, IsName, Spellable, Readable, Pen.Expr;
    StatementWords();
    SymbolsProper();
    NameProper(name);
    if init.Some? {
      ExprProper(S, P, init.value, 0);
    }
  }

  lemma SimpleProper(S: Source, P: Pen, s: Stmt)
    requires s.Return? || s.Print? || s.ExprStmt? || s.Import? || s.Respond?
    requires SpellableStmt(P, s) && Writable(S, P, s)
    ensures Proper(P.Stmt(s))
  {
    hide L.Writable, IsName, Spellable, Readable, Pen.Expr;
    StatementWords();
    DeclarationWords();
    ServerWords();
    SymbolsProper();
    match s
    case Return(result) =>
      if result.Some? {
        ExprProper(S, P, result.value, 0);
      }
    case Print(e) => ExprProper(S, P, e, 0);
    case ExprStmt(e) => ExprProper(S, P, e, 0);
    case Import(name) => NameProper(name);
    case Respond(status, reply) =>
      ExprProper(S, P, status, 0);
      ExprProper(S, P, reply, 0);
  }

  lemma {:induction false} IfProper(S: Source, P: Pen, s: Stmt)
    requires s.If? && SpellableStmt(P, s) && Writable(S, P, s)
    ensures Proper(P.Stmt(s))
    decreases s, 0
  {
    hide L.Writable, IsName, Spellable, Readable, Pen.Expr, WritableList;
    StatementWords();
    ExprProper(S, P, s.cond, 0);
    StmtProper(S, P, s.thenBranch);
    if s.elseBranch.Some? {
      StmtProper(S, P, s.elseBranch.value);
    }
  }

  lemma {:induction false} LoopProper(S: Source, P: Pen, s: Stmt)
    requires (s.While? || s.For? || s.ForIn?) && SpellableStmt(P, s) && Writable(S, P, s)
    ensures Proper(P.Stmt(s))
    decreases s, 0
  {
    hide L.Writable, IsName, Spellable, Readable, Pen.Expr, WritableList;
    LoopWords();
    SymbolsProper();
    StmtProper(S, P, s.body);
    match s
    case While(cond, _) => ExprProper(S, P, cond, 0);
    case For(name, start, end, _) =>
      NameProper(name);
      ExprProper(S, P, start, 0);
      ExprProper(S, P, end, 0);
    case ForIn(name, iterable, _) =>
      NameProper(name);
      ExprProper(S, P, iterable, 0);
  }

  lemma {:induction false} BlockProper(S: Source, P: Pen, s: Stmt)
    requires s.Block? && SpellableStmt(P, s) && WritableBlock(S, P, s)
    ensures Proper(P.Stmt(s))
    decreases s, 0
  {
    hide L.Writable, Pen.Stmts, WritableList, Writable;
    SymbolsProper();
    StmtsProper(S, P, s.stmts);
  }

  lemma {:induction false} FunctionProper(S: Source, P: Pen, s: Stmt)
    requires s.Function? && SpellableStmt(P, s) && Writable(S, P, s)
    ensures Proper(P.Stmt(s))
    decreases s, 0
  {
    hide L.Writable, IsName, IsOptionalName, SpellableParams, WritableList;
    DeclarationWords();
    SymbolsProper();
    NameProper(s.name);
    ParamsProper(s.params);
    TypeNameProper(s.returnType);
    StmtProper(S, P, s.body);
  }

  lemma {:induction false} ClassProper(S: Source, P: Pen, s: Stmt)
    requires s.Class? && SpellableStmt(P, s) && Writable(S, P, s)
    ensures Proper(P.Stmt(s))
    decreases s, 0
  {
    hide L.Writable, IsName, Pen.Stmts;
    DeclarationWords();
    SymbolsProper();
    NameProper(s.name);
    MembersProper(S, P, s.members);
  }

  lemma {:induction false} MembersProper(S: Source, P: Pen, ms: seq<Stmt>)
    requires forall i :: 0 <= i < |ms| ==> SpellableStmt(P, ms[i]) && Writable(S, P, ms[i])
    ensures Proper(P.Stmts(ms))
    decreases ms, 0
  {
    hide L.Writable, Pen.Stmt, SpellableStmt, Writable;
    if ms != [] {
      StmtProper(S, P, ms[0]);
      MembersProper(S, P, ms[1..]);
    }
  }

  lemma {:induction false} StmtsProper(S: Source, P: Pen, ss: seq<Stmt>)
    requires WritableList(S, P, ss) && forall i :: 0 <= i < |ss| ==> SpellableStmt(P, ss[i])
    ensures Proper(P.Stmts(ss))
    decreases ss, 0
  {
    hide L.Writable, Pen.Stmt, SpellableStmt, Writable, Apart;
    if ss != [] {
      StmtProper(S, P, ss[0]);
      StmtsProper(S, P, ss[1..]);
    }
  }

  lemma {:induction false} ServerProper(S: Source, P: Pen, s: Stmt)
    requires s.Server? && SpellableStmt(P, s) && Writable(S, P, s)
    ensures Proper(P.Stmt(s))
    decreases s, 0
  {
    hide L.Writable, IsName, IsOptionalName, Pen.Routes, WritableBlock, L.BodyShape, IntText;
    ServerWords();
    SymbolsProper();
    NameProper(s.name);
    IntProper(s.port);
    RoutesProper(S, P, s.routes);
  }

  lemma {:induction false} RoutesProper(S: Source, P: Pen, rs: seq<Route>)
    requires forall i :: 0 <= i < |rs| ==>
      IsName(rs[i].verb) && L.BodyShape(rs[i].path) && IsOptionalName(rs[i].middleware)
      && SpellableStmt(P, rs[i].body) && WritableBlock(S, P, rs[i].body)
    ensures Proper(P.Routes(rs))
    decreases rs, 0
  {
    hide L.Writable, IsName, IsOptionalName, Pen.Stmt, WritableBlock, SpellableStmt, L.BodyShape;
    if rs != [] {
      ServerWords();
      NameProper(rs[0].verb);
      StringProper(rs[0].path);
      MiddlewareProper(rs[0].middleware);
      StmtProper(S, P, rs[0].body);
      RoutesProper(S, P, rs[1..]);
    }
  }

  // ----- the whole way -----

  /** A program written as text, with any gaps between its tokens that keep them apart,
      and read by the lexer and the parser is the same program. */
  lemma TextRoundTrip(P: Pen, strtod: string -> Float, ss: seq<Stmt>, gaps: seq<string>)
    requires
      var S := Source(P.Stmts(ss), strtod);
      WritableList(S, P, ss) && forall i :: 0 <= i < |ss| ==> SpellableStmt(P, ss[i])
    requires |gaps| == |P.Stmts(ss)| + 1 && L.Laid(P.Stmts(ss), gaps)
    ensures
      var read := Text(WithoutMark(L.TextOf(P.Stmts(ss), gaps))).All(0);
      read.Some? && Source(read.value, strtod).ParseProgram() == Some(ss)
  {
    hide L.Writable, Pen.Stmts, WritableList, Text.All, L.TextOf, L.Laid;
    var S, T := Source(P.Stmts(ss), strtod), Text(L.TextOf(P.Stmts(ss), gaps));
    StmtsProper(S, P, ss);
    L.NoMark(P.Stmts(ss), gaps);
    assert T.src[0..] == T.src;
    L.TextReads(T, 0, P.Stmts(ss), gaps);
    ProgramRoundTrip(S, P, ss);
  }
}
