/** The grammar of the language, as a relation between stretches of a token list and trees.
    It says nothing about cursors or errors, and allows more parentheses than are needed.
    Where an expression stands open at the end of a statement, the token behind it is one
    that could not prolong it. */
module Grammar {
  import opened Wrappers
  import opened Decimal
  import opened Ast
  import opened Tokens
  import opened Syntax
  import opened Printer
  import opened ExprRoundTrip

  /** The kind of the token at `i`; behind the last token stands the end. */
  function Kind(S: Source, i: nat): TokenKind {
    if i < |S.tokens| then S.tokens[i].kind else TEof
  }

  /** At `i` stands a token of kind `k` with this text. */
  predicate WordAt(S: Source, i: nat, k: TokenKind, text: string) {
    i < |S.tokens| && S.tokens[i] == Token(k, text)
  }

  predicate NameAt(S: Source, i: nat, name: string) {
    WordAt(S, i, TIdent, name)
  }

  /** The token at `i` does not prolong an expression that ends in front of it. */
  predicate StopsAt(S: Source, i: nat) {
    !Continues(0, Kind(S, i))
  }

  // ----- expressions -----

  /** The tokens from `i` to `j` are the expression `e` at level `m` of the grammar. */
  ghost predicate ExprAt(S: Source, i: nat, j: nat, m: nat, e: Expr)
    ensures ExprAt(S, i, j, m, e) ==> i < j <= |S.tokens|
    decreases j - i, 60 - m
  {
    && i < j <= |S.tokens| && m <= 9
    && if m == 0 then (exists k: nat :: AssignAt(S, i, k, j, e)) || ExprAt(S, i, j, 1, e)
       else if m <= 6 then (exists k: nat :: BinaryAt(S, i, k, j, m, e)) || ExprAt(S, i, j, m + 1, e)
       else if m == 7 then UnaryAt(S, i, j, e) || ExprAt(S, i, j, 8, e)
       else if m == 8 then (exists k: nat :: CallAt(S, i, k, j, e)) || ExprAt(S, i, j, 9, e)
       else PrimaryAt(S, i, j, e)
  }

  ghost predicate AssignAt(S: Source, i: nat, k: nat, j: nat, e: Expr)
    decreases j - i, 40
  {
    && i < k < j && Kind(S, k) == TAssign && e.Assign?
    && ExprAt(S, i, k, 1, e.target) && ExprAt(S, k + 1, j, 0, e.source)
  }

  /** Operators of one level associate to the left. */
  ghost predicate BinaryAt(S: Source, i: nat, k: nat, j: nat, m: nat, e: Expr)
    decreases j - i, 40
  {
    && i < k < j && e.Binary? && OpLevel(e.op) == m && Kind(S, k) == OpToken(e.op).kind
    && ExprAt(S, i, k, m, e.left) && ExprAt(S, k + 1, j, m + 1, e.right)
  }

  ghost predicate UnaryAt(S: Source, i: nat, j: nat, e: Expr)
    decreases j - i, 40
  {
    && i + 1 < j && e.Unary? && Kind(S, i) == (match e.unop case Negate => TMinus case Not => TNot)
    && ExprAt(S, i + 1, j, 7, e.operand)
  }

  /** A call, a field access or an index access; what it is made on ends in front of `k`. */
  ghost predicate CallAt(S: Source, i: nat, k: nat, j: nat, e: Expr)
    decreases j - i, 40
  {
    && i < k < j - 1
    && match e
       case Call(callee, args) =>
         Kind(S, k) == TLParen && ExprAt(S, i, k, 8, callee) && Kind(S, j - 1) == TRParen
         && ListAt(S, k + 1, j - 1, args)
       case Dot(base, field) =>
         Kind(S, k) == TDot && ExprAt(S, i, k, 8, base) && j == k + 2 && NameAt(S, k + 1, field)
       case Index(base, index) =>
         Kind(S, k) == TLBracket && ExprAt(S, i, k, 8, base) && Kind(S, j - 1) == TRBracket
         && ExprAt(S, k + 1, j - 1, 0, index)
       case _ => false
  }

  ghost predicate PrimaryAt(S: Source, i: nat, j: nat, e: Expr)
    requires i < j <= |S.tokens|
    decreases j - i, 40
  {
    || (j == i + 1 && AtomAt(S, i, e))
    || (i + 1 < j - 1 && Kind(S, i) == TLParen && Kind(S, j - 1) == TRParen && ExprAt(S, i + 1, j - 1, 0, e))
    || (i + 1 <= j - 1 && e.ArrayLit? && Kind(S, i) == TLBracket && Kind(S, j - 1) == TRBracket
        && ListAt(S, i + 1, j - 1, e.elements))
  }

  /** One token. */
  predicate AtomAt(S: Source, i: nat, e: Expr)
    requires i < |S.tokens|
  {
    var t := S.tokens[i];
    match e
    case IntLit(n) => t.kind == TInt && n == ParseInt(t.text)
    case FloatLit(f) => t.kind == TFloat && f == S.strtod(t.text)
    case StringLit(s) => t.kind == TString && s == t.text
    case BoolLit(b) => t.kind == if b then TTrue else TFalse
    case NilLit => t.kind == TNil
    case Ident(name) => t.kind == TIdent && name == t.text
    case _ => false
  }

  /** Expressions with commas between them. */
  ghost predicate ListAt(S: Source, i: nat, j: nat, es: seq<Expr>)
    ensures ListAt(S, i, j, es) ==> i <= j
    decreases j - i, 100
  {
    if es == [] then i == j
    else if |es| == 1 then ExprAt(S, i, j, 0, es[0])
    else exists k: nat :: CommaAt(S, i, k, j, es)
  }

  ghost predicate CommaAt(S: Source, i: nat, k: nat, j: nat, es: seq<Expr>)
    requires |es| > 1
    decreases j - i, 90
  {
    i < k < j && ExprAt(S, i, k, 0, es[0]) && Kind(S, k) == TComma && ListAt(S, k + 1, j, es[1..])
  }

  // ----- statements -----

  /** The tokens from `i` to `j` are the statement `s`. */
  ghost predicate StmtAt(S: Source, i: nat, j: nat, s: Stmt)
    ensures StmtAt(S, i, j, s) ==> i < j <= |S.tokens|
    decreases j - i, 20
  {
    && i < j <= |S.tokens|
    && match s
       case Let(name, init) =>
         Kind(S, i) == TLet && NameAt(S, i + 1, name)
         && if init.None? then j == i + 2 && Kind(S, j) != TAssign
            else Kind(S, i + 2) == TAssign && ExprAt(S, i + 3, j, 0, init.value) && StopsAt(S, j)
       case If(_, _, _) => Kind(S, i) == TIf && IfAt(S, i + 1, j, s)
       case While(cond, body) => Kind(S, i) == TWhile && HeadAt(S, i + 1, j, cond, body)
       case For(name, start, end, body) => ForAt(S, i, name) && RangeAt(S, i + 3, j, start, end, body)
       case ForIn(name, iterable, body) => ForAt(S, i, name) && HeadAt(S, i + 3, j, iterable, body)
       case Block(_) => false
       case Function(_, _, _, _) => Kind(S, i) == TFn && FunctionAt(S, i + 1, j, s)
       case Return(None) => Kind(S, i) == TReturn && j == i + 1 && (j == |S.tokens| || Kind(S, j) == TRBrace)
       case Return(Some(e)) => Kind(S, i) == TReturn && ExprAt(S, i + 1, j, 0, e) && StopsAt(S, j)
       case Print(e) =>
         Kind(S, i) == TPrint && Kind(S, i + 1) == TLParen && i + 2 < j - 1 && ExprAt(S, i + 2, j - 1, 0, e)
         && Kind(S, j - 1) == TRParen
       case ExprStmt(e) => ExprAt(S, i, j, 0, e) && StopsAt(S, j)
       case Import(name) => Kind(S, i) == TImport && NameAt(S, i + 1, name) && j == i + 2
       case Class(name, members) =>
         Kind(S, i) == TClass && NameAt(S, i + 1, name) && Kind(S, i + 2) == TLBrace && i + 3 <= j - 1
         && MembersAt(S, i + 3, j - 1, members) && Kind(S, j - 1) == TRBrace
       case Server(name, port, routes) =>
         Kind(S, i) == TServer && NameAt(S, i + 1, name) && ServerAt(S, i + 2, j, port, routes)
       case Respond(status, reply) => Kind(S, i) == TRespond && RespondAt(S, i + 1, j, status, reply) && StopsAt(S, j)
  }

  /** An expression, and a block behind it. */
  ghost predicate HeadAt(S: Source, i: nat, j: nat, e: Expr, body: Stmt)
    ensures HeadAt(S, i, j, e, body) ==> i < j <= |S.tokens|
    decreases j - i, 8
  {
    exists a: nat :: i < a < j && ExprAt(S, i, a, 0, e) && BlockAt(S, a, j, body)
  }

  predicate ForAt(S: Source, i: nat, name: string) {
    Kind(S, i) == TFor && NameAt(S, i + 1, name) && Kind(S, i + 2) == TIn
  }

  ghost predicate RangeAt(S: Source, i: nat, j: nat, start: Expr, end: Expr, body: Stmt)
    ensures RangeAt(S, i, j, start, end, body) ==> i < j <= |S.tokens|
    decreases j - i, 10
  {
    exists a: nat ::
      i < a < j && ExprAt(S, i, a, 0, start) && Kind(S, a) == TDotDot && HeadAt(S, a + 1, j, end, body)
  }

  ghost predicate RespondAt(S: Source, i: nat, j: nat, status: Expr, reply: Expr)
    decreases j - i, 10
  {
    exists k: nat :: i < k < j && ExprAt(S, i, k, 0, status) && StopsAt(S, k) && ExprAt(S, k, j, 0, reply)
  }

  /** Condition, block, and perhaps an `else`. */
  ghost predicate IfAt(S: Source, i: nat, j: nat, s: Stmt)
    ensures IfAt(S, i, j, s) ==> i < j
    decreases j - i, 10
  {
    s.If? && exists b: nat :: i < b <= j && HeadAt(S, i, b, s.cond, s.thenBranch) && ElseAt(S, b, j, s.elseBranch)
  }

  ghost predicate ElseAt(S: Source, i: nat, j: nat, f: Option<Stmt>)
    decreases j - i, 9
  {
    match f
    case None => i == j && Kind(S, i) != TElse
    case Some(f) =>
      i + 1 < j && Kind(S, i) == TElse
      && if f.If? then Kind(S, i + 1) == TIf && IfAt(S, i + 2, j, f) else BlockAt(S, i + 1, j, f)
  }

  ghost predicate BlockAt(S: Source, i: nat, j: nat, b: Stmt)
    ensures BlockAt(S, i, j, b) ==> i < j <= |S.tokens|
    decreases j - i, 5
  {
    && b.Block? && i + 1 <= j - 1 && j <= |S.tokens|
    && Kind(S, i) == TLBrace && Kind(S, j - 1) == TRBrace && StmtsAt(S, i + 1, j - 1, b.stmts)
  }

  /** Statements one behind the other. */
  ghost predicate StmtsAt(S: Source, i: nat, j: nat, ss: seq<Stmt>)
    ensures StmtsAt(S, i, j, ss) ==> i <= j
    decreases j - i, 30
  {
    if ss == [] then i == j
    else exists k: nat :: i < k <= j && StmtAt(S, i, k, ss[0]) && StmtsAt(S, k, j, ss[1..])
  }

  /** A function, from behind its keyword. */
  ghost predicate FunctionAt(S: Source, i: nat, j: nat, s: Stmt)
    ensures FunctionAt(S, i, j, s) ==> i < j <= |S.tokens|
    decreases j - i, 10
  {
    s.Function? && exists t: nat :: i < t <= j && SignatureAt(S, i, t, s) && BlockAt(S, t, j, s.body)
  }

  ghost predicate SignatureAt(S: Source, i: nat, t: nat, s: Stmt)
    requires s.Function?
  {
    && NameAt(S, i, s.name) && Kind(S, i + 1) == TLParen && ParameterListAt(S, i + 2, t, s.params, s.returnType)
  }

  ghost predicate ParameterListAt(S: Source, i: nat, t: nat, ps: seq<Param>, returnType: Option<string>) {
    exists p: nat :: ParamsAt(S, i, p, ps) && Kind(S, p) == TRParen && TypeAt(S, p + 1, t, returnType)
  }

  /** A type name, or none where no name stands. */
  predicate TypeAt(S: Source, i: nat, j: nat, typeName: Option<string>) {
    match typeName
    case None => i == j && Kind(S, i) != TIdent
    case Some(name) => j == i + 1 && NameAt(S, i, name)
  }

  /** Names with or without a type, with commas between them. */
  ghost predicate ParamsAt(S: Source, i: nat, j: nat, ps: seq<Param>)
    ensures ParamsAt(S, i, j, ps) ==> i <= j
    decreases ps
  {
    if ps == [] then i == j
    else
      exists k: nat :: ParamAt(S, i, k, ps[0]) &&
        if |ps| == 1 then k == j else Kind(S, k) == TComma && ParamsAt(S, k + 1, j, ps[1..])
  }

  predicate ParamAt(S: Source, i: nat, j: nat, p: Param)
    ensures ParamAt(S, i, j, p) ==> i < j
  {
    NameAt(S, i, p.name) && TypeAt(S, i + 1, j, p.typeName)
  }

  /** The methods of a class. A name behind a name is a field, and of no account; neither is
      any other token that starts no method. */
  ghost predicate MembersAt(S: Source, i: nat, j: nat, ms: seq<Stmt>)
    decreases j - i, 30
  {
    if i >= j then i == j && ms == []
    else if Kind(S, i) == TFn then
      ms != [] && exists k: nat :: i < k <= j && MethodAt(S, i, k, ms[0]) && MembersAt(S, k, j, ms[1..])
    else if Kind(S, i) == TIdent && Kind(S, i + 1) == TIdent then MembersAt(S, i + 2, j, ms)
    else Kind(S, i) != TRBrace && MembersAt(S, i + 1, j, ms)
  }

  ghost predicate MethodAt(S: Source, i: nat, j: nat, f: Stmt)
    decreases j - i, 20
  {
    i < j && Kind(S, i) == TFn && FunctionAt(S, i + 1, j, f)
  }

  ghost predicate ServerAt(S: Source, i: nat, j: nat, port: int, routes: seq<Route>)
    decreases j - i, 10
  {
    exists p: nat :: i <= p < j - 1 && PortAt(S, i, p, port) && Kind(S, p) == TLBrace
      && RoutesAt(S, p + 1, j - 1, routes) && Kind(S, j - 1) == TRBrace
  }

  /** `on` and a number, of which 32 bits count; without one the port is 8080. */
  predicate PortAt(S: Source, i: nat, j: nat, port: int) {
    if Kind(S, i) == TOn && Kind(S, i + 1) == TInt then
      j == i + 2 && -0x8000_0000 <= port < 0x8000_0000
      && (port - ParseInt(S.tokens[i + 1].text)) % 0x1_0000_0000 == 0
    else port == 8080 && j == if Kind(S, i) == TOn then i + 1 else i
  }

  /** The routes of a server; a token that starts none is of no account. */
  ghost predicate RoutesAt(S: Source, i: nat, j: nat, rs: seq<Route>)
    decreases j - i, 30
  {
    if i >= j then i == j && rs == []
    else if Kind(S, i) == TRoute then
      rs != [] && exists k: nat :: i < k <= j && RouteAt(S, i, k, rs[0]) && RoutesAt(S, k, j, rs[1..])
    else Kind(S, i) != TRBrace && RoutesAt(S, i + 1, j, rs)
  }

  ghost predicate RouteAt(S: Source, i: nat, j: nat, r: Route)
    decreases j - i, 20
  {
    && Kind(S, i) == TRoute && NameAt(S, i + 1, r.verb) && WordAt(S, i + 2, TString, r.path) && i + 3 < j
    && RouteTailAt(S, i + 3, j, r)
  }

  ghost predicate RouteTailAt(S: Source, i: nat, j: nat, r: Route)
    decreases j - i, 10
  {
    exists a: nat :: i <= a < j && MiddlewareAt(S, i, a, r.middleware) && BlockAt(S, a, j, r.body)
  }

  /** A name in brackets, or nothing where no bracket stands. */
  predicate MiddlewareAt(S: Source, i: nat, j: nat, m: Option<string>) {
    match m
    case None => i == j && Kind(S, i) != TLBracket
    case Some(name) =>
      j == i + 3 && Kind(S, i) == TLBracket && NameAt(S, i + 1, name) && Kind(S, i + 2) == TRBracket
  }

  /** The whole token list is this program. */
  ghost predicate IsProgram(S: Source, ss: seq<Stmt>) {
    StmtsAt(S, 0, |S.tokens|, ss)
  }
}
