/** What the parser builds (src/parser.c), as functions of the token list and the
    cursor. They are total: on every token list, well-formed or not, each of them
    ends, because each call moves the cursor on or goes down the ladder. */
module Syntax {
  import opened Wrappers
  import opened Decimal
  import opened Values
  import opened Ast
  import opened Tokens

  /** The parser's state: the number of tokens taken, the one taken last, and the flags. */
  datatype Cursor = Cursor(pos: nat, previous: Token, hadError: bool, panic: bool)

  /** The token list and the library's reading of float literals. */
  datatype Source = Source(tokens: seq<Token>, strtod: string -> Float) {

    predicate On(c: Cursor) {
      c.pos <= |tokens|
    }

    /** After the last token the lexer keeps delivering the end marker. */
    function Current(c: Cursor): Token {
      if c.pos < |tokens| then tokens[c.pos] else END
    }

    predicate Check(c: Cursor, k: TokenKind) {
      Current(c).kind == k
    }

    predicate AtEnd(c: Cursor) {
      c.pos >= |tokens|
    }

    /** The end marker stands only behind the last token, as the lexer delivers it. */
    predicate Ended() {
      forall i :: 0 <= i < |tokens| ==> tokens[i].kind != TEof
    }

    lemma EndCheck(c: Cursor)
      requires Ended()
      ensures Check(c, TEof) <==> AtEnd(c)
    {
    }

    function Advance(c: Cursor): (c': Cursor)
      requires On(c)
      ensures On(c') && (c.pos < |tokens| ==> c'.pos == c.pos + 1) && (c.pos == |tokens| ==> c'.pos == c.pos)
    {
      c.(pos := if c.pos < |tokens| then c.pos + 1 else c.pos, previous := Current(c))
    }

    /** `error_at`: only the first error of a statement is reported. */
    static function Error(c: Cursor): Cursor {
      if c.panic then c else c.(panic := true, hadError := true)
    }

    function Consume(c: Cursor, k: TokenKind): (c': Cursor)
      requires On(c)
      ensures On(c') && c.pos <= c'.pos
    {
      if Check(c, k) then Advance(c) else Error(c)
    }

    /** From `c` to `c'` nothing is given back, and something is taken unless all is taken. */
    predicate Moves(c: Cursor, c': Cursor) {
      On(c') && c.pos <= c'.pos && (c.pos < |tokens| ==> c.pos < c'.pos)
    }

    ghost function Left(c: Cursor): nat
      requires On(c)
    {
      |tokens| - c.pos
    }

    // ----- expressions -----

    function ParsePrimary(c: Cursor): (r: (Expr, Cursor))
      requires On(c)
      ensures Moves(c, r.1)
      decreases Left(c), 0
    {
      var t, next := Current(c), Advance(c);
      match t.kind
      case TInt => (IntLit(ParseInt(t.text)), next)
      case TFloat => (FloatLit(strtod(t.text)), next)
      case TString => (StringLit(t.text), next)
      case TTrue => (BoolLit(true), next)
      case TFalse => (BoolLit(false), next)
      case TNil => (NilLit, next)
      case TIdent => (Ident(t.text), next)
      case TLParen =>
        var (e, c1) := ParseExpression(next);
        (e, Consume(c1, TRParen))
      case TLBracket =>
        var (es, c1) := ParseElements(next, TRBracket);
        (ArrayLit(es), Consume(c1, TRBracket))
      case _ => (NilLit, Advance(Error(c)))
    }

    lemma PrimarySteps(c: Cursor)
      requires On(c)
      ensures Check(c, TLParen) ==>
        var (e, c1) := ParseExpression(Advance(c));
        ParsePrimary(c) == (e, Consume(c1, TRParen))
      ensures Check(c, TLBracket) ==>
        var (es, c1) := ParseElements(Advance(c), TRBracket);
        ParsePrimary(c) == (ArrayLit(es), Consume(c1, TRBracket))
    {
      hide ParseElements, ParseExpression, ParseInt, Consume, Error, Advance, Current;
    }

    /** The elements up to a closing token, which is not taken. */
    function ParseElements(c: Cursor, close: TokenKind): (r: (seq<Expr>, Cursor))
      requires On(c)
      ensures On(r.1) && c.pos <= r.1.pos
      decreases Left(c), 13
    {
      if Check(c, close) then ([], c) else ParseCommaList(c)
    }

    function ParseCommaList(c: Cursor): (r: (seq<Expr>, Cursor))
      requires On(c)
      ensures On(r.1) && c.pos <= r.1.pos
      decreases Left(c), 12
    {
      var (e, c1) := ParseExpression(c);
      if Check(c1, TComma) then
        var (es, c2) := ParseCommaList(Advance(c1));
        ([e] + es, c2)
      else ([e], c1)
    }

    lemma CommaListFirst(c: Cursor)
      requires On(c)
      ensures
        var (e, c1) := ParseExpression(c);
        var rest := if Check(c1, TComma) then ParseCommaList(Advance(c1)) else ([], c1);
        ParseCommaList(c) == ([e] + rest.0, rest.1)
    {
      hide ParseExpression;
      var e := ParseExpression(c).0;
      assert [e] + [] == [e];
    }

    function ParseCall(c: Cursor): (r: (Expr, Cursor))
      requires On(c)
      ensures Moves(c, r.1)
      decreases Left(c), 2
    {
      var (e, c1) := ParsePrimary(c);
      CallLoop(e, c1)
    }

    /** Calls, field accesses and index accesses behind `e`. */
    function CallLoop(e: Expr, c: Cursor): (r: (Expr, Cursor))
      requires On(c)
      ensures On(r.1) && c.pos <= r.1.pos
      decreases Left(c), 1
    {
      if Check(c, TLParen) then
        var (args, c1) := ParseElements(Advance(c), TRParen);
        CallLoop(Call(e, args), Consume(c1, TRParen))
      else if Check(c, TDot) then
        var c1 := Consume(Advance(c), TIdent);
        CallLoop(Dot(e, c1.previous.text), c1)
      else if Check(c, TLBracket) then
        var (i, c1) := ParseExpression(Advance(c));
        CallLoop(Index(e, i), Consume(c1, TRBracket))
      else (e, c)
    }

    function ParseUnary(c: Cursor): (r: (Expr, Cursor))
      requires On(c)
      ensures Moves(c, r.1)
      decreases Left(c), 3
    {
      if Check(c, TMinus) || Check(c, TNot) then
        var op := if Check(c, TMinus) then Negate else Not;
        var (e, c1) := ParseUnary(Advance(c));
        (Unary(op, e), c1)
      else ParseCall(c)
    }

    /** One of the six levels of left-associative operators: `or`, `and`, equality,
        comparison, sum and product, numbered 1 to 6. */
    function ParseBinary(level: nat, c: Cursor): (r: (Expr, Cursor))
      requires On(c) && 1 <= level <= 6
      ensures Moves(c, r.1)
      decreases Left(c), 10 - level
    {
      var (e, c1) := ParseOperand(level, c);
      BinaryLoop(level, e, c1)
    }

    /** An operand of the operators at `level`. */
    function ParseOperand(level: nat, c: Cursor): (r: (Expr, Cursor))
      requires On(c) && 1 <= level <= 6
      ensures Moves(c, r.1)
      decreases Left(c), 10 - level, 0
    {
      if level == 6 then ParseUnary(c) else ParseBinary(level + 1, c)
    }

    function BinaryLoop(level: nat, left: Expr, c: Cursor): (r: (Expr, Cursor))
      requires On(c) && 1 <= level <= 6
      ensures On(r.1) && c.pos <= r.1.pos
      decreases Left(c), 0
    {
      var op := OperatorAt(level, Current(c).kind);
      if op.None? then (left, c)
      else
        var (right, c1) := ParseOperand(level, Advance(c));
        BinaryLoop(level, Binary(op.value, left, right), c1)
    }

    function ParseAssignment(c: Cursor): (r: (Expr, Cursor))
      requires On(c)
      ensures Moves(c, r.1)
      decreases Left(c), 10
    {
      var (left, c1) := ParseBinary(1, c);
      if Check(c1, TAssign) then
        var (value, c2) := ParseAssignment(Advance(c1));
        (Assign(left, value), c2)
      else (left, c1)
    }

    function ParseExpression(c: Cursor): (r: (Expr, Cursor))
      requires On(c)
      ensures Moves(c, r.1)
      decreases Left(c), 11
    {
      ParseAssignment(c)
    }

    // ----- statements -----

    function ParseBlock(c: Cursor): (r: (Stmt, Cursor))
      requires On(c)
      ensures On(r.1) && c.pos <= r.1.pos
      decreases Left(c), 22
    {
      var (ss, c1) := ParseStatements(Consume(c, TLBrace));
      (Block(ss), Consume(c1, TRBrace))
    }

    /** Statements up to a closing brace or the end. */
    function ParseStatements(c: Cursor): (r: (seq<Stmt>, Cursor))
      requires On(c)
      ensures On(r.1) && c.pos <= r.1.pos
      decreases Left(c), 21
    {
      if Check(c, TRBrace) || AtEnd(c) then ([], c)
      else
        var (s, c1) := ParseStatement(c);
        var (ss, c2) := ParseStatements(c1);
        ([s] + ss, c2)
    }

    function ParseStatement(c: Cursor): (r: (Stmt, Cursor))
      requires On(c)
      ensures Moves(c, r.1)
      decreases Left(c), 20
    {
      var next := Advance(c);
      match Current(c).kind
      case TLet => ParseLet(next)
      case TIf => ParseIf(next)
      case TWhile =>
        var (e, c1) := ParseExpression(next);
        var (b, c2) := ParseBlock(c1);
        (While(e, b), c2)
      case TFor => ParseFor(next)
      case TFn => ParseFunction(next)
      case TReturn => ParseReturn(next)
      case TImport =>
        var c1 := Consume(next, TIdent);
        (Import(c1.previous.text), c1)
      case TClass => ParseClass(next)
      case TServer => ParseServer(next)
      case TPrint =>
        var (e, c1) := ParseExpression(Consume(next, TLParen));
        (Print(e), Consume(c1, TRParen))
      case TRespond =>
        var (status, c1) := ParseExpression(next);
        var (reply, c2) := ParseExpression(c1);
        (Respond(status, reply), c2)
      case _ => ParseExprStmt(c)
    }

    /** The cases of `ParseStatement`, one by one. */
    lemma StatementCases(c: Cursor)
      requires On(c)
      ensures Check(c, TLet) ==> ParseStatement(c) == ParseLet(Advance(c))
      ensures Check(c, TIf) ==> ParseStatement(c) == ParseIf(Advance(c))
      ensures Check(c, TWhile) ==>
        var (e, c1) := ParseExpression(Advance(c));
        var (b, c2) := ParseBlock(c1);
        ParseStatement(c) == (While(e, b), c2)
      ensures Check(c, TFor) ==> ParseStatement(c) == ParseFor(Advance(c))
      ensures Check(c, TFn) ==> ParseStatement(c) == ParseFunction(Advance(c))
    {
      hide ParseLet, ParseIf, ParseExpression, ParseBlock, ParseFor, ParseFunction, ParseClass, ParseServer,
           ParseExprStmt, ParseReturn,
           Consume, Advance, Current;
    }

    lemma MoreStatementCases(c: Cursor)
      requires On(c)
      ensures Check(c, TReturn) ==> ParseStatement(c) == ParseReturn(Advance(c))
      ensures Check(c, TImport) ==>
        var c1 := Consume(Advance(c), TIdent);
        ParseStatement(c) == (Import(c1.previous.text), c1)
      ensures Check(c, TClass) ==> ParseStatement(c) == ParseClass(Advance(c))
      ensures Check(c, TServer) ==> ParseStatement(c) == ParseServer(Advance(c))
    {
      hide ParseReturn, ParseLet, ParseIf, ParseExpression, ParseBlock, ParseFor, ParseFunction, ParseClass,
           ParseServer, ParseExprStmt,
           Consume, Advance, Current;
    }

    lemma PlainStatementCases(c: Cursor)
      requires On(c)
      ensures Check(c, TPrint) ==>
        var (e, c1) := ParseExpression(Consume(Advance(c), TLParen));
        ParseStatement(c) == (Print(e), Consume(c1, TRParen))
      ensures Check(c, TRespond) ==>
        var (status, c1) := ParseExpression(Advance(c));
        var (reply, c2) := ParseExpression(c1);
        ParseStatement(c) == (Respond(status, reply), c2)
      ensures !StatementKeyword(Current(c).kind) ==>
        var (e, c1) := ParseExpression(c);
        ParseStatement(c) == (ExprStmt(e), c1)
    {
      hide ParseReturn, ParseLet, ParseIf, ParseExpression, ParseBlock, ParseFor, ParseFunction, ParseClass,
           ParseServer,
           Consume, Advance, Current;
    }

    function ParseReturn(c: Cursor): (r: (Stmt, Cursor))
      requires On(c)
      ensures On(r.1) && c.pos <= r.1.pos
      decreases Left(c), 12
    {
      if Check(c, TRBrace) || AtEnd(c) then (Return(None), c)
      else
        var (e, c1) := ParseExpression(c);
        (Return(Some(e)), c1)
    }

    function ParseExprStmt(c: Cursor): (r: (Stmt, Cursor))
      requires On(c)
      ensures Moves(c, r.1)
      decreases Left(c), 12
    {
      var (e, c1) := ParseExpression(c);
      (ExprStmt(e), c1)
    }

    function ParseLet(c: Cursor): (r: (Stmt, Cursor))
      requires On(c)
      ensures On(r.1) && c.pos <= r.1.pos
      decreases Left(c), 12
    {
      var c1 := Consume(c, TIdent);
      var name := c1.previous.text;
      if Check(c1, TAssign) then
        var (e, c2) := ParseExpression(Advance(c1));
        (Let(name, Some(e)), c2)
      else (Let(name, None), c1)
    }

    function ParseIf(c: Cursor): (r: (Stmt, Cursor))
      requires On(c)
      ensures On(r.1) && c.pos <= r.1.pos
      decreases Left(c), 23
    {
      var (e, c1) := ParseExpression(c);
      var (t, c2) := ParseBlock(c1);
      if Check(c2, TElse) then
        var c3 := Advance(c2);
        if Check(c3, TIf) then
          var (f, c4) := ParseIf(Advance(c3));
          (If(e, t, Some(f)), c4)
        else
          var (f, c4) := ParseBlock(c3);
          (If(e, t, Some(f)), c4)
      else (If(e, t, None), c2)
    }

    function ParseFor(c: Cursor): (r: (Stmt, Cursor))
      requires On(c)
      ensures On(r.1) && c.pos <= r.1.pos
      decreases Left(c), 23
    {
      var c1 := Consume(c, TIdent);
      var name := c1.previous.text;
      var (e, c2) := ParseExpression(Consume(c1, TIn));
      if Check(c2, TDotDot) then
        var (z, c3) := ParseExpression(Advance(c2));
        var (b, c4) := ParseBlock(c3);
        (For(name, e, z, b), c4)
      else
        var (b, c3) := ParseBlock(c2);
        (ForIn(name, e, b), c3)
    }

    function ParseFunction(c: Cursor): (r: (Stmt, Cursor))
      requires On(c)
      ensures On(r.1) && c.pos <= r.1.pos
      decreases Left(c), 23
    {
      var c1 := Consume(c, TIdent);
      var name := c1.previous.text;
      var c2 := Consume(c1, TLParen);
      var (params, c3) := if Check(c2, TRParen) then ([], c2) else ParseParams(c2);
      var (returnType, c4) := ParseTypeName(Consume(c3, TRParen));
      var (b, c5) := ParseBlock(c4);
      (Function(name, params, returnType, b), c5)
    }

    /** An optional type name. */
    function ParseTypeName(c: Cursor): (r: (Option<string>, Cursor))
      requires On(c)
      ensures On(r.1) && c.pos <= r.1.pos
    {
      if Check(c, TIdent) then (Some(Current(c).text), Advance(c)) else (None, c)
    }

    function ParseParams(c: Cursor): (r: (seq<Param>, Cursor))
      requires On(c)
      ensures On(r.1) && c.pos <= r.1.pos
      decreases Left(c)
    {
      var c1 := Consume(c, TIdent);
      var name := c1.previous.text;
      var (typeName, c2) := ParseTypeName(c1);
      if Check(c2, TComma) then
        var (ps, c3) := ParseParams(Advance(c2));
        ([Param(name, typeName)] + ps, c3)
      else ([Param(name, typeName)], c2)
    }

    function ParseClass(c: Cursor): (r: (Stmt, Cursor))
      requires On(c)
      ensures On(r.1) && c.pos <= r.1.pos
      decreases Left(c), 25
    {
      var c1 := Consume(c, TIdent);
      var name := c1.previous.text;
      var (members, c2) := ParseMembers(Consume(c1, TLBrace));
      (Class(name, members), Consume(c2, TRBrace))
    }

    /** Methods are kept; field declarations and anything else are skipped. */
    function ParseMembers(c: Cursor): (r: (seq<Stmt>, Cursor))
      requires On(c)
      ensures On(r.1) && c.pos <= r.1.pos
      decreases Left(c), 24
    {
      if Check(c, TRBrace) || AtEnd(c) then ([], c)
      else if Check(c, TFn) then
        var (f, c1) := ParseFunction(Advance(c));
        var (fs, c2) := ParseMembers(c1);
        ([f] + fs, c2)
      else if Check(c, TIdent) && Check(Advance(c), TIdent) then
        ParseMembers(Advance(Advance(c)))
      else ParseMembers(Advance(c))
    }

    function ParseServer(c: Cursor): (r: (Stmt, Cursor))
      requires On(c)
      ensures On(r.1) && c.pos <= r.1.pos
      decreases Left(c), 25
    {
      var c1 := Consume(c, TIdent);
      var name := c1.previous.text;
      var (port, c2) := ParsePort(c1);
      var (routes, c3) := ParseRoutes(Consume(c2, TLBrace));
      (Server(name, port, routes), Consume(c3, TRBrace))
    }

    function ParsePort(c: Cursor): (r: (int, Cursor))
      requires On(c)
      ensures On(r.1) && c.pos <= r.1.pos
    {
      if !Check(c, TOn) then (8080, c)
      else
        var c1 := Advance(c);
        if Check(c1, TInt) then (Int32(ParseInt(Current(c1).text)), Advance(c1)) else (8080, c1)
    }

    function ParseRoutes(c: Cursor): (r: (seq<Route>, Cursor))
      requires On(c)
      ensures On(r.1) && c.pos <= r.1.pos
      decreases Left(c), 24
    {
      if Check(c, TRBrace) || AtEnd(c) then ([], c)
      else if Check(c, TRoute) then
        var c1 := Consume(Advance(c), TIdent);
        var verb := c1.previous.text;
        var c2 := Consume(c1, TString);
        var path := c2.previous.text;
        var (middleware, c3) := ParseMiddleware(c2);
        var (b, c4) := ParseBlock(c3);
        var (rs, c5) := ParseRoutes(c4);
        ([Route(verb, path, middleware, b)] + rs, c5)
      else ParseRoutes(Advance(c))
    }

    function ParseMiddleware(c: Cursor): (r: (Option<string>, Cursor))
      requires On(c)
      ensures On(r.1) && c.pos <= r.1.pos
    {
      if !Check(c, TLBracket) then (None, c)
      else
        var c1 := Consume(Advance(c), TIdent);
        (Some(c1.previous.text), Consume(c1, TRBracket))
    }

    /** After an error the parser looks for a token that starts a statement. */
    function Synchronize(c: Cursor): (c': Cursor)
      requires On(c)
      ensures On(c') && c.pos <= c'.pos
      decreases Left(c)
    {
      if AtEnd(c) || StartsStatement(Current(c).kind) then c else Synchronize(Advance(c))
    }

    /** Top-level statements to the end. */
    function ParseTop(c: Cursor): (r: (seq<Stmt>, Cursor))
      requires On(c)
      ensures On(r.1) && AtEnd(r.1)
      decreases Left(c)
    {
      if AtEnd(c) then ([], c)
      else
        var (s, c1) := ParseStatement(c);
        var c2 := if c1.panic then Synchronize(c1.(panic := false)) else c1;
        var (ss, c3) := ParseTop(c2);
        ([s] + ss, c3)
    }

    // ----- the lists, unfolded by their first element -----

    lemma StatementsFirst(c: Cursor)
      requires On(c)
      ensures ParseStatements(c) ==
        if Check(c, TRBrace) || AtEnd(c) then ([], c)
        else
          var (s, c1) := ParseStatement(c);
          var (ss, c2) := ParseStatements(c1);
          ([s] + ss, c2)
    {
      hide ParseStatement;
    }

    lemma ParamsFirst(c: Cursor)
      requires On(c)
      ensures
        var c1 := Consume(c, TIdent);
        var (typeName, c2) := ParseTypeName(c1);
        var rest := if Check(c2, TComma) then ParseParams(Advance(c2)) else ([], c2);
        ParseParams(c) == ([Param(c1.previous.text, typeName)] + rest.0, rest.1)
    {
      hide ParseTypeName, Consume;
      var c1 := Consume(c, TIdent);
      var r := ParseTypeName(c1);
      var p := Param(c1.previous.text, r.0);
      if !Check(r.1, TComma) {
        assert [p] + [] == [p];
      }
    }

    lemma MembersFirst(c: Cursor)
      requires On(c)
      ensures ParseMembers(c) ==
        if Check(c, TRBrace) || AtEnd(c) then ([], c)
        else if Check(c, TFn) then
          var (f, c1) := ParseFunction(Advance(c));
          var (fs, c2) := ParseMembers(c1);
          ([f] + fs, c2)
        else if Check(c, TIdent) && Check(Advance(c), TIdent) then
          ParseMembers(Advance(Advance(c)))
        else ParseMembers(Advance(c))
    {
      hide ParseFunction;
    }

    lemma RoutesFirst(c: Cursor)
      requires On(c)
      ensures ParseRoutes(c) ==
        if Check(c, TRBrace) || AtEnd(c) then ([], c)
        else if Check(c, TRoute) then
          var c1 := Consume(Advance(c), TIdent);
          var c2 := Consume(c1, TString);
          var (middleware, c3) := ParseMiddleware(c2);
          var (b, c4) := ParseBlock(c3);
          var (rs, c5) := ParseRoutes(c4);
          ([Route(c1.previous.text, c2.previous.text, middleware, b)] + rs, c5)
        else ParseRoutes(Advance(c))
    {
      hide ParseBlock, ParseMiddleware;
    }

    lemma TopFirst(c: Cursor)
      requires On(c)
      ensures ParseTop(c) ==
        if AtEnd(c) then ([], c)
        else
          var (s, c1) := ParseStatement(c);
          var (ss, c3) := ParseTop(if c1.panic then Synchronize(c1.(panic := false)) else c1);
          ([s] + ss, c3)
    {
      hide ParseStatement, Synchronize;
    }

    static const START: Cursor := Cursor(0, END, false, false)

    /** sky_parser_parse: no tree when there was an error. */
    function ParseProgram(): Option<seq<Stmt>> {
      var (ss, c) := ParseTop(START);
      if c.hadError then None else Some(ss)
    }
  }

  /** `(int)` of a 64-bit value. */
  function Int32(n: int): int {
    var m := n % 0x1_0000_0000;
    if m >= 0x8000_0000 then m - 0x1_0000_0000 else m
  }

  /** The tokens that `parse_statement` looks for. */
  predicate StatementKeyword(k: TokenKind) {
    k in {TLet, TIf, TWhile, TFor, TFn, TReturn, TImport, TClass, TServer, TPrint, TRespond}
  }

  predicate StartsStatement(k: TokenKind) {
    k in {TLet, TFn, TClass, TIf, TFor, TWhile, TReturn, TImport, TServer}
  }

  /** The operator that token `k` is at one of the six levels. */
  function OperatorAt(level: nat, k: TokenKind): Option<BinOp> {
    match (level, k)
    case (1, TOr) => Some(Or)
    case (2, TAnd) => Some(And)
    case (3, TEqualEqual) => Some(Equal)
    case (3, TNotEqual) => Some(NotEqual)
    case (4, TLess) => Some(Less)
    case (4, TLessEqual) => Some(LessEq)
    case (4, TGreater) => Some(Greater)
    case (4, TGreaterEqual) => Some(GreaterEq)
    case (5, TPlus) => Some(Add)
    case (5, TMinus) => Some(Sub)
    case (6, TStar) => Some(Mul)
    case (6, TSlash) => Some(Div)
    case (6, TPercent) => Some(Mod)
    case _ => None
  }
}
