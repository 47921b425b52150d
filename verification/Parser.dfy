/** The parser (src/parser.c): methods that move a cursor over the tokens. Each is
    proved to build what Syntax says and to leave the cursor where Syntax says. */
module Parser {
  import opened Wrappers
  import opened Decimal
  import opened Values
  import opened Ast
  import opened Tokens
  import opened Syntax

  /** A list being built: `done` so far, `rest` still to come. */
  ghost predicate Remains<T(!new)>(all: (seq<T>, Cursor), done: seq<T>, rest: (seq<T>, Cursor)) {
    all == (done + rest.0, rest.1)
  }

  lemma RemainsStart<T(!new)>(all: (seq<T>, Cursor))
    ensures Remains(all, [], all)
  {
    assert [] + all.0 == all.0;
  }

  lemma RemainsStep<T(!new)>(all: (seq<T>, Cursor), done: seq<T>, x: T, rest: (seq<T>, Cursor))
    requires Remains(all, done, ([x] + rest.0, rest.1))
    ensures Remains(all, done + [x], rest)
  {
    assert done + ([x] + rest.0) == done + [x] + rest.0;
  }

  lemma RemainsEnd<T(!new)>(all: (seq<T>, Cursor), done: seq<T>, c: Cursor)
    requires Remains(all, done, ([], c))
    ensures all == (done, c)
  {
    assert done + [] == done;
  }

  class SkyParser {
    const source: Source
    var pos: nat
    var previous: Token
    var hadError: bool
    var panicMode: bool

    ghost predicate Valid()
      reads this
    {
      pos <= |source.tokens| && source.Ended()
    }

    function Here(): Cursor
      reads this
    {
      Cursor(pos, previous, hadError, panicMode)
    }

    /** The lexer's next token; behind the last one, the end marker. */
    function Current(): Token
      reads this
    {
      source.Current(Here())
    }

    predicate Check(k: TokenKind)
      reads this
    {
      Current().kind == k
    }

    /** sky_parser_init */
    constructor (source: Source)
      requires source.Ended()
      ensures Valid() && this.source == source && Here() == Source.START
    {
      this.source := source;
      pos, previous, hadError, panicMode := 0, END, false, false;
    }

    method Advance()
      requires Valid()
      modifies this
      ensures Valid() && Here() == source.Advance(old(Here()))
    {
      previous := Current();
      if pos < |source.tokens| {
        pos := pos + 1;
      }
    }

    method Match(k: TokenKind) returns (matched: bool)
      requires Valid() && k != TEof
      modifies this
      ensures Valid() && matched == old(Check(k))
      ensures Here() == if matched then source.Advance(old(Here())) else old(Here())
      ensures matched ==> pos > old(pos)
    {
      matched := Check(k);
      if matched {
        Advance();
      }
    }

    method ErrorAt()
      requires Valid()
      modifies this
      ensures Valid() && Here() == Source.Error(old(Here()))
    {
      if panicMode {
        return;
      }
      panicMode := true;
      hadError := true;
    }

    method Consume(k: TokenKind)
      requires Valid()
      modifies this
      ensures Valid() && Here() == source.Consume(old(Here()), k)
    {
      if Check(k) {
        Advance();
      } else {
        ErrorAt();
      }
    }

    // ----- expressions -----

    method ParsePrimary() returns (e: Expr)
      requires Valid()
      modifies this
      ensures Valid() && (e, Here()) == source.ParsePrimary(old(Here()))
      decreases |source.tokens| - pos, 0
    {
      hide Source.ParsePrimary, Source.ParseExpression, Source.ParseElements;
      source.PrimarySteps(Here());
      var isParen := Match(TLParen);
      if isParen {
        e := ParseExpression();
        Consume(TRParen);
        return;
      }
      var isBracket := Match(TLBracket);
      if isBracket {
        var es := ParseElements(TRBracket);
        Consume(TRBracket);
        e := ArrayLit(es);
        return;
      }
      e := ParseAtom();
    }

    /** The primaries of one token; anything else is an error and is skipped. */
    method ParseAtom() returns (e: Expr)
      requires Valid() && !Check(TLParen) && !Check(TLBracket)
      modifies this
      ensures Valid() && (e, Here()) == source.ParsePrimary(old(Here()))
    {
      hide Source.ParseExpression, Source.ParseElements, ParseInt;
      var t := Current();
      var isToken := t.kind in {TInt, TFloat, TString, TTrue, TFalse, TNil, TIdent};
      if !isToken {
        ErrorAt();
        Advance();
        return NilLit;
      }
      Advance();
      e := if t.kind == TInt then IntLit(ParseInt(t.text))
           else if t.kind == TFloat then FloatLit(source.strtod(t.text))
           else if t.kind == TString then StringLit(t.text)
           else if t.kind == TTrue then BoolLit(true)
           else if t.kind == TFalse then BoolLit(false)
           else if t.kind == TNil then NilLit
           else Ident(t.text);
    }

    /** The list between a pair of brackets: `do ... while (match(TOKEN_COMMA))`. */
    method ParseElements(close: TokenKind) returns (es: seq<Expr>)
      requires Valid()
      modifies this
      ensures Valid() && (es, Here()) == source.ParseElements(old(Here()), close)
      decreases |source.tokens| - pos, 13
    {
      es := [];
      if !Check(close) {
        es := ParseCommaList();
      }
    }

    method ParseCommaList() returns (es: seq<Expr>)
      requires Valid()
      modifies this
      ensures Valid() && (es, Here()) == source.ParseCommaList(old(Here()))
      decreases |source.tokens| - pos, 12
    {
      hide Source.ParseExpression, Source.ParseCommaList, Remains;
      ghost var start := Here();
      ghost var all := source.ParseCommaList(start);
      RemainsStart(all);
      es := [];
      var more := true;
      while more
        invariant Valid() && pos >= start.pos
        invariant Remains(all, es, if more then source.ParseCommaList(Here()) else ([], Here()))
        decreases more, |source.tokens| - pos
      {
        source.CommaListFirst(Here());
        var e := ParseExpression();
        RemainsStep(all, es, e, if Check(TComma) then source.ParseCommaList(source.Advance(Here())) else ([], Here()));
        es := es + [e];
        more := Match(TComma);
      }
      RemainsEnd(all, es, Here());
    }

    method ParseCall() returns (e: Expr)
      requires Valid()
      modifies this
      ensures Valid() && (e, Here()) == source.ParseCall(old(Here()))
      decreases |source.tokens| - pos, 2
    {
      e := ParsePrimary();
      ghost var r := source.CallLoop(e, Here());
      var more := true;
      while more
        invariant Valid() && pos >= old(pos) && (pos == old(pos) ==> pos == |source.tokens|)
        invariant r == if more then source.CallLoop(e, Here()) else (e, Here())
        decreases more, |source.tokens| - pos
      {
        var isCall := Match(TLParen);
        if isCall {
          var args := ParseElements(TRParen);
          Consume(TRParen);
          e := Call(e, args);
        } else {
          var isDot := Match(TDot);
          if isDot {
            Consume(TIdent);
            e := Dot(e, previous.text);
          } else {
            var isIndex := Match(TLBracket);
            if isIndex {
              var i := ParseExpression();
              Consume(TRBracket);
              e := Index(e, i);
            } else {
              more := false;
            }
          }
        }
      }
    }

    method ParseUnary() returns (e: Expr)
      requires Valid()
      modifies this
      ensures Valid() && (e, Here()) == source.ParseUnary(old(Here()))
      decreases |source.tokens| - pos, 3
    {
      if Check(TMinus) || Check(TNot) {
        Advance();
        var op := if previous.kind == TMinus then Negate else Not;
        var operand := ParseUnary();
        e := Unary(op, operand);
      } else {
        e := ParseCall();
      }
    }

    /** parse_factor, parse_term, parse_comparison, parse_equality, parse_logic_and and
        parse_logic_or, from level 6 to level 1. */
    method ParseBinary(level: nat) returns (left: Expr)
      requires Valid() && 1 <= level <= 6
      modifies this
      ensures Valid() && (left, Here()) == source.ParseBinary(level, old(Here()))
      decreases |source.tokens| - pos, 10 - level
    {
      hide Source.ParseOperand;
      left := ParseOperand(level);
      ghost var r := source.BinaryLoop(level, left, Here());
      var op := OperatorAt(level, Current().kind);
      while op.Some?
        invariant Valid() && pos >= old(pos) && op == OperatorAt(level, Current().kind)
        invariant op.Some? ==> pos > old(pos)
        invariant r == source.BinaryLoop(level, left, Here())
        decreases |source.tokens| - pos
      {
        Advance();
        var right := ParseOperand(level);
        left := Binary(op.value, left, right);
        op := OperatorAt(level, Current().kind);
      }
    }

    method ParseOperand(level: nat) returns (e: Expr)
      requires Valid() && 1 <= level <= 6
      modifies this
      ensures Valid()
      ensures (e, Here()) == source.ParseOperand(level, old(Here()))
      decreases |source.tokens| - pos, 10 - level, 0
    {
      if level == 6 {
        e := ParseUnary();
      } else {
        e := ParseBinary(level + 1);
      }
    }

    method ParseAssignment() returns (e: Expr)
      requires Valid()
      modifies this
      ensures Valid() && (e, Here()) == source.ParseAssignment(old(Here()))
      decreases |source.tokens| - pos, 10
    {
      e := ParseBinary(1);
      var assigns := Match(TAssign);
      if assigns {
        var value := ParseAssignment();
        e := Assign(e, value);
      }
    }

    method ParseExpression() returns (e: Expr)
      requires Valid()
      modifies this
      ensures Valid() && (e, Here()) == source.ParseExpression(old(Here()))
      decreases |source.tokens| - pos, 11
    {
      e := ParseAssignment();
    }

    // ----- statements -----

    method ParseBlock() returns (s: Stmt)
      requires Valid()
      modifies this
      ensures Valid() && (s, Here()) == source.ParseBlock(old(Here()))
      decreases |source.tokens| - pos, 22
    {
      hide Source.ParseStatements;
      Consume(TLBrace);
      var ss := ParseStatements();
      Consume(TRBrace);
      s := Block(ss);
    }

    method ParseStatements() returns (ss: seq<Stmt>)
      requires Valid()
      modifies this
      ensures Valid() && (ss, Here()) == source.ParseStatements(old(Here()))
      decreases |source.tokens| - pos, 21
    {
      hide Source.ParseStatement, Source.ParseStatements, Source.Ended, Remains;
      ghost var all := source.ParseStatements(Here());
      ss := [];
      RemainsStart(all);
      while !Check(TRBrace) && !Check(TEof)
        invariant Valid() && pos >= old(pos)
        invariant Remains(all, ss, source.ParseStatements(Here()))
        decreases |source.tokens| - pos
      {
        source.StatementsFirst(Here());
        source.EndCheck(Here());
        var s := ParseStatement();
        RemainsStep(all, ss, s, source.ParseStatements(Here()));
        ss := ss + [s];
      }
      source.StatementsFirst(Here());
      source.EndCheck(Here());
      RemainsEnd(all, ss, Here());
    }

    method ParseStatement() returns (s: Stmt)
      requires Valid()
      modifies this
      ensures Valid() && (s, Here()) == source.ParseStatement(old(Here()))
      decreases |source.tokens| - pos, 20
    {
      hide Source.ParseStatement, Source.ParseExpression, Source.ParseBlock, Source.ParseLet, Source.ParseIf,
           Source.ParseFor, Source.ParseFunction,
           Source.ParseClass, Source.ParseServer, Source.Ended;
      source.StatementCases(Here());
      var isLet := Match(TLet);
      if isLet {
        s := ParseLet();
        return;
      }
      var isIf := Match(TIf);
      if isIf {
        s := ParseIf();
        return;
      }
      var isWhile := Match(TWhile);
      if isWhile {
        var e := ParseExpression();
        var b := ParseBlock();
        return While(e, b);
      }
      var isFor := Match(TFor);
      if isFor {
        s := ParseFor();
        return;
      }
      var isFn := Match(TFn);
      if isFn {
        s := ParseFunction();
        return;
      }
      s := ParseOther();
    }

    method ParseOther() returns (s: Stmt)
      requires Valid() && !(Current().kind in {TLet, TIf, TWhile, TFor, TFn})
      modifies this
      ensures Valid() && (s, Here()) == source.ParseStatement(old(Here()))
      decreases |source.tokens| - pos, 19
    {
      hide Source.ParseStatement, Source.ParseReturn, Source.ParseExpression, Source.ParseBlock, Source.ParseLet,
           Source.ParseIf, Source.ParseFor, Source.ParseFunction,
           Source.ParseClass, Source.ParseServer, Source.Ended;
      source.MoreStatementCases(Here());
      var isReturn := Match(TReturn);
      if isReturn {
        s := ParseReturn();
        return;
      }
      var isImport := Match(TImport);
      if isImport {
        Consume(TIdent);
        return Import(previous.text);
      }
      var isClass := Match(TClass);
      if isClass {
        s := ParseClass();
        return;
      }
      var isServer := Match(TServer);
      if isServer {
        s := ParseServer();
        return;
      }
      s := ParsePlain();
    }

    method ParsePlain() returns (s: Stmt)
      requires Valid() && (StatementKeyword(Current().kind) ==> Check(TPrint) || Check(TRespond))
      modifies this
      ensures Valid() && (s, Here()) == source.ParseStatement(old(Here()))
      decreases |source.tokens| - pos, 18
    {
      hide Source.ParseStatement, Source.ParseExpression, Source.ParseBlock, Source.ParseLet, Source.ParseIf,
           Source.ParseFor, Source.ParseFunction,
           Source.ParseClass, Source.ParseServer, Source.Ended;
      source.PlainStatementCases(Here());
      var isPrint := Match(TPrint);
      if isPrint {
        Consume(TLParen);
        var e := ParseExpression();
        Consume(TRParen);
        return Print(e);
      }
      var isRespond := Match(TRespond);
      if isRespond {
        var status := ParseExpression();
        var reply := ParseExpression();
        return Respond(status, reply);
      }
      var e := ParseExpression();
      s := ExprStmt(e);
    }

    method ParseReturn() returns (s: Stmt)
      requires Valid()
      modifies this
      ensures Valid() && (s, Here()) == source.ParseReturn(old(Here()))
      decreases |source.tokens| - pos, 12
    {
      hide Source.ParseExpression, Source.Ended;
      source.EndCheck(Here());
      if Check(TRBrace) || Check(TEof) {
        return Return(None);
      }
      var e := ParseExpression();
      s := Return(Some(e));
    }

    method ParseLet() returns (s: Stmt)
      requires Valid()
      modifies this
      ensures Valid() && (s, Here()) == source.ParseLet(old(Here()))
      decreases |source.tokens| - pos, 12
    {
      hide Source.ParseExpression;
      Consume(TIdent);
      var name := previous.text;
      var hasValue := Match(TAssign);
      if !hasValue {
        return Let(name, None);
      }
      var e := ParseExpression();
      s := Let(name, Some(e));
    }

    method ParseIf() returns (s: Stmt)
      requires Valid()
      modifies this
      ensures Valid() && (s, Here()) == source.ParseIf(old(Here()))
      decreases |source.tokens| - pos, 23
    {
      hide Source.ParseExpression, Source.ParseBlock;
      var cond := ParseExpression();
      var thenBranch := ParseBlock();
      var hasElse := Match(TElse);
      if !hasElse {
        return If(cond, thenBranch, None);
      }
      var chained := Match(TIf);
      var elseBranch;
      if chained {
        elseBranch := ParseIf();
      } else {
        elseBranch := ParseBlock();
      }
      s := If(cond, thenBranch, Some(elseBranch));
    }

    method ParseFor() returns (s: Stmt)
      requires Valid()
      modifies this
      ensures Valid() && (s, Here()) == source.ParseFor(old(Here()))
      decreases |source.tokens| - pos, 23
    {
      hide Source.ParseExpression, Source.ParseBlock;
      Consume(TIdent);
      var name := previous.text;
      Consume(TIn);
      var iterable := ParseExpression();
      var isRange := Match(TDotDot);
      if isRange {
        var end := ParseExpression();
        var b := ParseBlock();
        return For(name, iterable, end, b);
      }
      var b := ParseBlock();
      s := ForIn(name, iterable, b);
    }

    method ParseFunction() returns (s: Stmt)
      requires Valid()
      modifies this
      ensures Valid() && (s, Here()) == source.ParseFunction(old(Here()))
      decreases |source.tokens| - pos, 23
    {
      hide Source.ParseParams, Source.ParseTypeName, Source.ParseBlock;
      Consume(TIdent);
      var name := previous.text;
      Consume(TLParen);
      var params := [];
      if !Check(TRParen) {
        params := ParseParams();
      }
      Consume(TRParen);
      var returnType := ParseTypeName();
      var b := ParseBlock();
      s := Function(name, params, returnType, b);
    }

    method ParseTypeName() returns (name: Option<string>)
      requires Valid()
      modifies this
      ensures Valid() && (name, Here()) == source.ParseTypeName(old(Here()))
      decreases |source.tokens| - pos, 0
    {
      if !Check(TIdent) {
        return None;
      }
      Advance();
      name := Some(previous.text);
    }

    method ParseParams() returns (ps: seq<Param>)
      requires Valid()
      modifies this
      ensures Valid() && (ps, Here()) == source.ParseParams(old(Here()))
      decreases |source.tokens| - pos, 1
    {
      hide Source.ParseParams, Source.ParseTypeName, Source.Ended, Remains;
      ghost var all := source.ParseParams(Here());
      ps := [];
      RemainsStart(all);
      var more := true;
      while more
        invariant Valid() && pos >= old(pos)
        invariant Remains(all, ps, if more then source.ParseParams(Here()) else ([], Here()))
        decreases more, |source.tokens| - pos
      {
        source.ParamsFirst(Here());
        Consume(TIdent);
        var name := previous.text;
        var typeName := ParseTypeName();
        var param := Param(name, typeName);
        RemainsStep(all, ps, param, if Check(TComma) then source.ParseParams(source.Advance(Here())) else ([], Here()));
        ps := ps + [param];
        more := Match(TComma);
      }
      RemainsEnd(all, ps, Here());
    }

    method ParseClass() returns (s: Stmt)
      requires Valid()
      modifies this
      ensures Valid() && (s, Here()) == source.ParseClass(old(Here()))
      decreases |source.tokens| - pos, 25
    {
      hide Source.ParseMembers;
      Consume(TIdent);
      var name := previous.text;
      Consume(TLBrace);
      var members := ParseMembers();
      Consume(TRBrace);
      s := Class(name, members);
    }

    method ParseMembers() returns (fs: seq<Stmt>)
      requires Valid()
      modifies this
      ensures Valid() && (fs, Here()) == source.ParseMembers(old(Here()))
      decreases |source.tokens| - pos, 24
    {
      hide Source.ParseMembers, Source.ParseFunction, Source.Ended, Remains;
      ghost var all := source.ParseMembers(Here());
      fs := [];
      RemainsStart(all);
      while !Check(TRBrace) && !Check(TEof)
        invariant Valid() && pos >= old(pos)
        invariant Remains(all, fs, source.ParseMembers(Here()))
        decreases |source.tokens| - pos
      {
        source.MembersFirst(Here());
        source.EndCheck(Here());
        var isFn := Match(TFn);
        if isFn {
          var f := ParseFunction();
          RemainsStep(all, fs, f, source.ParseMembers(Here()));
          fs := fs + [f];
        } else {
          SkipMember();
        }
      }
      source.MembersFirst(Here());
      source.EndCheck(Here());
      RemainsEnd(all, fs, Here());
    }

    /** A field, which is one or two identifiers, or any other token. */
    method SkipMember()
      requires Valid() && pos < |source.tokens|
      modifies this
      ensures Valid() && pos > old(pos)
      ensures
        var c := old(Here());
        Here() == if source.Check(c, TIdent) && source.Check(source.Advance(c), TIdent)
                  then source.Advance(source.Advance(c)) else source.Advance(c)
    {
      hide Source.Ended;
      if Check(TIdent) {
        Advance();
        if Check(TIdent) {
          Advance();
        }
      } else {
        Advance();
      }
    }

    method ParseServer() returns (s: Stmt)
      requires Valid()
      modifies this
      ensures Valid() && (s, Here()) == source.ParseServer(old(Here()))
      decreases |source.tokens| - pos, 25
    {
      hide Source.ParseRoutes, Source.ParsePort;
      Consume(TIdent);
      var name := previous.text;
      var port := ParsePort();
      Consume(TLBrace);
      var routes := ParseRoutes();
      Consume(TRBrace);
      s := Server(name, port, routes);
    }

    method ParsePort() returns (port: int)
      requires Valid()
      modifies this
      ensures Valid() && (port, Here()) == source.ParsePort(old(Here()))
      decreases |source.tokens| - pos, 0
    {
      hide ParseInt;
      port := 8080;
      var hasPort := Match(TOn);
      if hasPort {
        var isNumber := Match(TInt);
        if isNumber {
          port := Int32(ParseInt(previous.text));
        }
      }
    }

    method ParseMiddleware() returns (name: Option<string>)
      requires Valid()
      modifies this
      ensures Valid() && (name, Here()) == source.ParseMiddleware(old(Here()))
      decreases |source.tokens| - pos, 0
    {
      var has := Match(TLBracket);
      if !has {
        return None;
      }
      Consume(TIdent);
      name := Some(previous.text);
      Consume(TRBracket);
    }

    method ParseRoutes() returns (rs: seq<Route>)
      requires Valid()
      modifies this
      ensures Valid() && (rs, Here()) == source.ParseRoutes(old(Here()))
      decreases |source.tokens| - pos, 24
    {
      hide Source.ParseRoutes, Source.ParseBlock, Source.ParseMiddleware, Source.Ended, Remains;
      ghost var all := source.ParseRoutes(Here());
      rs := [];
      RemainsStart(all);
      while !Check(TRBrace) && !Check(TEof)
        invariant Valid() && pos >= old(pos)
        invariant Remains(all, rs, source.ParseRoutes(Here()))
        decreases |source.tokens| - pos
      {
        source.RoutesFirst(Here());
        source.EndCheck(Here());
        var isRoute := Match(TRoute);
        if isRoute {
          Consume(TIdent);
          var verb := previous.text;
          Consume(TString);
          var path := previous.text;
          var middleware := ParseMiddleware();
          var b := ParseBlock();
          var r := Route(verb, path, middleware, b);
          RemainsStep(all, rs, r, source.ParseRoutes(Here()));
          rs := rs + [r];
        } else {
          Advance();
        }
      }
      source.RoutesFirst(Here());
      source.EndCheck(Here());
      RemainsEnd(all, rs, Here());
    }

    /** Skips to a token that starts a statement. */
    method Synchronize()
      requires Valid()
      modifies this
      ensures Valid() && Here() == source.Synchronize(old(Here()))
    {
      while !Check(TEof) && !StartsStatement(Current().kind)
        invariant Valid() && source.Synchronize(Here()) == source.Synchronize(old(Here()))
        decreases |source.tokens| - pos
      {
        source.EndCheck(Here());
        Advance();
      }
      source.EndCheck(Here());
    }

    /** sky_parser_parse on a fresh parser */
    method Parse() returns (program: Option<seq<Stmt>>)
      requires Valid() && Here() == Source.START
      modifies this
      ensures Valid() && program == source.ParseProgram()
    {
      hide Source.ParseStatement, Source.ParseTop, Source.Synchronize, Source.Ended, Remains;
      ghost var all := source.ParseTop(Here());
      var ss := [];
      RemainsStart(all);
      while !Check(TEof)
        invariant Valid()
        invariant Remains(all, ss, source.ParseTop(Here()))
        decreases |source.tokens| - pos
      {
        source.TopFirst(Here());
        source.EndCheck(Here());
        var s := ParseStatement();
        if panicMode {
          panicMode := false;
          Synchronize();
        }
        RemainsStep(all, ss, s, source.ParseTop(Here()));
        ss := ss + [s];
      }
      source.TopFirst(Here());
      source.EndCheck(Here());
      RemainsEnd(all, ss, Here());
      program := if hadError then None else Some(ss);
    }
  }
}
