/** Programs written back as tokens: the grammar of docs and parser.c read the other
    way round, with parentheses only where precedence asks for them. */
module Printer {
  import opened Wrappers
  import opened Decimal
  import opened Values
  import opened Ast
  import opened Tokens
  import opened Syntax

  /** The nine levels of the grammar: assignment 0, the binary operators 1 to 6, prefix
      operators 7, calls and accesses 8, and everything that one primary holds 9. */
  function Level(e: Expr): nat {
    match e
    case Assign(_, _) => 0
    case Binary(op, _, _) => OpLevel(op)
    case Unary(_, _) => 7
    case Call(_, _) => 8
    case Dot(_, _) => 8
    case Index(_, _) => 8
    case _ => 9
  }

  function OpLevel(op: BinOp): (level: nat)
    ensures 1 <= level <= 6
  {
    match op
    case Or => 1
    case And => 2
    case Equal => 3
    case NotEqual => 3
    case Less => 4
    case LessEq => 4
    case Greater => 4
    case GreaterEq => 4
    case Add => 5
    case Sub => 5
    case Mul => 6
    case Div => 6
    case Mod => 6
  }

  function OpToken(op: BinOp): (t: Token)
    ensures forall level :: OperatorAt(level, t.kind) == if level == OpLevel(op) then Some(op) else None
  {
    match op
    case Or => Token(TOr, "or")
    case And => Token(TAnd, "and")
    case Equal => Token(TEqualEqual, "==")
    case NotEqual => Token(TNotEqual, "!=")
    case Less => Token(TLess, "<")
    case LessEq => Token(TLessEqual, "<=")
    case Greater => Token(TGreater, ">")
    case GreaterEq => Token(TGreaterEqual, ">=")
    case Add => Token(TPlus, "+")
    case Sub => Token(TMinus, "-")
    case Mul => Token(TStar, "*")
    case Div => Token(TSlash, "/")
    case Mod => Token(TPercent, "%")
  }

  function UnOpToken(op: UnOp): Token {
    match op
    case Negate => Token(TMinus, "-")
    case Not => Token(TNot, "not")
  }

  const LPAREN: Token := Token(TLParen, "(")
  const RPAREN: Token := Token(TRParen, ")")
  const LBRACKET: Token := Token(TLBracket, "[")
  const RBRACKET: Token := Token(TRBracket, "]")
  const LBRACE: Token := Token(TLBrace, "{")
  const RBRACE: Token := Token(TRBrace, "}")
  const COMMA: Token := Token(TComma, ",")
  const DOT: Token := Token(TDot, ".")
  const DOT_DOT: Token := Token(TDotDot, "..")
  const ASSIGN: Token := Token(TAssign, "=")

  function Name(name: string): Token {
    Token(TIdent, name)
  }

  function Word(k: TokenKind, text: string): Token {
    Token(k, text)
  }

  /** `text` writes floats. */
  datatype Pen = Pen(text: Float -> string) {

    /** `e` where the grammar wants an expression of at least `level`. */
    function Expr(e: Expr, level: nat): (ts: seq<Token>)
      ensures ts != []
      decreases e, 1
    {
      if Level(e) < level then [LPAREN] + Bare(e) + [RPAREN] else Bare(e)
    }

    function Bare(e: Expr): (ts: seq<Token>)
      ensures ts != []
      decreases e, 0
    {
      match e
      case IntLit(n) => [Token(TInt, IntText(n))]
      case FloatLit(f) => [Token(TFloat, text(f))]
      case StringLit(s) => [Token(TString, s)]
      case BoolLit(b) => [if b then Word(TTrue, "true") else Word(TFalse, "false")]
      case NilLit => [Word(TNil, "nil")]
      case Ident(name) => [Name(name)]
      case Binary(op, l, r) => Expr(l, OpLevel(op)) + [OpToken(op)] + Expr(r, OpLevel(op) + 1)
      case Unary(op, operand) => [UnOpToken(op)] + Expr(operand, 7)
      case Call(callee, args) => Expr(callee, 8) + [LPAREN] + List(args) + [RPAREN]
      case Dot(base, field) => Expr(base, 8) + [DOT] + [Name(field)]
      case Index(base, i) => Expr(base, 8) + [LBRACKET] + Expr(i, 0) + [RBRACKET]
      case ArrayLit(es) => [LBRACKET] + List(es) + [RBRACKET]
      case Assign(target, source) => Expr(target, 1) + [ASSIGN] + Expr(source, 0)
    }

    function List(es: seq<Expr>): seq<Token>
      decreases es, 0
    {
      if es == [] then []
      else if |es| == 1 then Expr(es[0], 0)
      else Expr(es[0], 0) + [COMMA] + List(es[1..])
    }

    function Stmt(s: Stmt): (ts: seq<Token>)
      decreases s, 1
    {
      match s
      case Let(name, None) => [Word(TLet, "let"), Name(name)]
      case Let(name, Some(e)) => [Word(TLet, "let"), Name(name), ASSIGN] + Expr(e, 0)
      case If(cond, t, None) => [Word(TIf, "if")] + Expr(cond, 0) + Stmt(t)
      case If(cond, t, Some(e)) =>
        [Word(TIf, "if")] + Expr(cond, 0) + Stmt(t) + [Word(TElse, "else")] + Stmt(e)
      case While(cond, body) => [Word(TWhile, "while")] + Expr(cond, 0) + Stmt(body)
      case For(name, start, end, body) =>
        [Word(TFor, "for"), Name(name), Word(TIn, "in")] + Expr(start, 0) + [DOT_DOT] + Expr(end, 0) + Stmt(body)
      case ForIn(name, iterable, body) =>
        [Word(TFor, "for"), Name(name), Word(TIn, "in")] + Expr(iterable, 0) + Stmt(body)
      case Block(ss) => [LBRACE] + Stmts(ss) + [RBRACE]
      case Function(name, params, returnType, body) =>
        [Word(TFn, "fn"), Name(name), LPAREN] + Params(params) + [RPAREN] + TypeName(returnType) + Stmt(body)
      case Return(None) => [Word(TReturn, "return")]
      case Return(Some(e)) => [Word(TReturn, "return")] + Expr(e, 0)
      case Print(e) => [Word(TPrint, "print"), LPAREN] + Expr(e, 0) + [RPAREN]
      case ExprStmt(e) => Expr(e, 0)
      case Import(name) => [Word(TImport, "import"), Name(name)]
      case Class(name, members) => [Word(TClass, "class"), Name(name), LBRACE] + Stmts(members) + [RBRACE]
      case Server(name, port, routes) =>
        [Word(TServer, "server"), Name(name), Word(TOn, "on"), Token(TInt, IntText(port)), LBRACE] + Routes(routes) +
          [RBRACE]
      case Respond(status, reply) => [Word(TRespond, "respond")] + Expr(status, 0) + Expr(reply, 0)
    }

    function Stmts(ss: seq<Stmt>): seq<Token>
      decreases ss, 0
    {
      if ss == [] then [] else Stmt(ss[0]) + Stmts(ss[1..])
    }

    function Routes(rs: seq<Route>): seq<Token>
      decreases rs, 0
    {
      if rs == [] then [] else Route(rs[0]) + Routes(rs[1..])
    }

    function Route(r: Route): seq<Token>
      decreases r, 0
    {
      [Word(TRoute, "route"), Name(r.verb), Token(TString, r.path)] + Middleware(r.middleware) + Stmt(r.body)
    }

    static function Middleware(m: Option<string>): seq<Token> {
      match m
      case None => []
      case Some(name) => [LBRACKET, Name(name), RBRACKET]
    }

    static function TypeName(t: Option<string>): seq<Token> {
      match t
      case None => []
      case Some(name) => [Name(name)]
    }

    static function Params(ps: seq<Param>): seq<Token> {
      if ps == [] then []
      else if |ps| == 1 then [Name(ps[0].name)] + TypeName(ps[0].typeName)
      else [Name(ps[0].name)] + TypeName(ps[0].typeName) + [COMMA] + Params(ps[1..])
    }
  }
}
