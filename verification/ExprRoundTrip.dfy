/** Reading back what Printer writes gives the same tree, for expressions. */
module ExprRoundTrip {
  import opened Decimal
  import opened Values
  import opened Ast
  import opened Tokens
  import opened Syntax
  import opened Printer

  /** The level at which token `k`, standing behind an expression, prolongs it. */
  function TokenLevel(k: TokenKind): (level: int)
    ensures level <= 8
    ensures forall l :: 1 <= l <= 6 ==> (OperatorAt(l, k).Some? <==> level == l)
  {
    match k
    case TAssign => 0
    case TOr => 1
    case TAnd => 2
    case TEqualEqual => 3
    case TNotEqual => 3
    case TLess => 4
    case TLessEqual => 4
    case TGreater => 4
    case TGreaterEqual => 4
    case TPlus => 5
    case TMinus => 5
    case TStar => 6
    case TSlash => 6
    case TPercent => 6
    case TLParen => 8
    case TDot => 8
    case TLBracket => 8
    case _ => -1
  }

  /** An expression of `level` would be read on over token `k`. */
  predicate Continues(level: nat, k: TokenKind) {
    TokenLevel(k) >= level
  }

  /** The tokens that can start an expression. */
  predicate StartsExpr(k: TokenKind) {
    k in {TInt, TFloat, TString, TTrue, TFalse, TNil, TIdent, TLParen, TLBracket, TMinus, TNot}
  }

  /** The tree has a text: integers are not negative and fit, floats are read back. */
  predicate Readable(S: Source, P: Pen, e: Expr) {
    match e
    case IntLit(n) => 0 <= n <= INT64_MAX
    case FloatLit(f) => S.strtod(P.text(f)) == f
    case Binary(_, l, r) => Readable(S, P, l) && Readable(S, P, r)
    case Unary(_, operand) => Readable(S, P, operand)
    case Call(callee, args) => Readable(S, P, callee) && forall i :: 0 <= i < |args| ==> Readable(S, P, args[i])
    case Dot(base, _) => Readable(S, P, base)
    case Index(base, i) => Readable(S, P, base) && Readable(S, P, i)
    case ArrayLit(es) => forall i :: 0 <= i < |es| ==> Readable(S, P, es[i])
    case Assign(target, source) => Readable(S, P, target) && Readable(S, P, source)
    case _ => true
  }

  // ----- tokens in place -----

  /** From the cursor on, the tokens are `ts`. */
  ghost predicate Stands(S: Source, c: Cursor, ts: seq<Token>) {
    c.pos + |ts| <= |S.tokens| && S.tokens[c.pos..c.pos + |ts|] == ts
  }

  /** The cursor when `ts` has been taken without an error. */
  function Past(c: Cursor, ts: seq<Token>): Cursor {
    if ts == [] then c else c.(pos := c.pos + |ts|, previous := ts[|ts| - 1])
  }

  lemma StandsSplit(S: Source, c: Cursor, a: seq<Token>, b: seq<Token>)
    requires Stands(S, c, a + b)
    ensures Stands(S, c, a) && Stands(S, Past(c, a), b)
    ensures Past(c, a + b) == Past(Past(c, a), b)
  {
    var all := S.tokens[c.pos..c.pos + |a + b|];
    assert all[..|a|] == a;
    assert all[|a|..] == b;
    assert S.tokens[c.pos..c.pos + |a|] == all[..|a|];
    assert S.tokens[c.pos + |a|..c.pos + |a| + |b|] == all[|a|..];
    if b == [] {
      assert a + b == a;
    }
  }

  lemma StandsOne(S: Source, c: Cursor, t: Token)
    requires Stands(S, c, [t])
    ensures S.On(c) && S.Current(c) == t && S.Advance(c) == Past(c, [t]) && Past(c, [t]).previous == t
  {
    assert S.tokens[c.pos..c.pos + 1][0] == t;
  }

  /** The first token of `[t] + rest`. */
  lemma StandsFirst(S: Source, c: Cursor, t: Token, rest: seq<Token>)
    requires Stands(S, c, [t] + rest)
    ensures S.On(c) && S.Current(c) == t && S.Advance(c) == Past(c, [t]) && Past(c, [t]).previous == t
    ensures Stands(S, Past(c, [t]), rest) && Past(c, [t] + rest) == Past(Past(c, [t]), rest)
  {
    StandsSplit(S, c, [t], rest);
    StandsOne(S, c, t);
  }

  lemma StandsHead(S: Source, c: Cursor, ts: seq<Token>)
    requires Stands(S, c, ts) && ts != []
    ensures S.On(c) && S.Current(c) == ts[0]
  {
    assert S.tokens[c.pos..c.pos + |ts|][0] == ts[0];
  }

  // ----- the printed form -----

  lemma {:induction false} ExprFirst(P: Pen, e: Expr, m: nat)
    ensures StartsExpr(P.Expr(e, m)[0].kind)
    ensures m >= 8 ==> P.Expr(e, m)[0].kind !in {TMinus, TNot}
    decreases e
  {
    match e
    case Binary(op, l, _) => ExprFirst(P, l, OpLevel(op));
    case Call(callee, _) => ExprFirst(P, callee, 8);
    case Dot(base, _) => ExprFirst(P, base, 8);
    case Index(base, _) => ExprFirst(P, base, 8);
    case Assign(target, _) => ExprFirst(P, target, 1);
    case _ =>
  }

  lemma SameText(P: Pen, e: Expr, m: nat)
    requires Level(e) != m
    ensures P.Expr(e, m) == P.Expr(e, m + 1)
  {
  }

  lemma UnaryText(S: Source, P: Pen, e: Expr)
    requires e.Unary?
    ensures P.Expr(e, 7) == [UnOpToken(e.unop)] + P.Expr(e.operand, 7)
    ensures Readable(S, P, e) ==> Readable(S, P, e.operand)
  {
  }

  lemma BinaryText(S: Source, P: Pen, e: Expr, m: nat)
    requires 1 <= m <= 6 && Level(e) == m
    ensures e.Binary? && OpLevel(e.op) == m
    ensures P.Expr(e, m) == P.Expr(e.left, m) + ([OpToken(e.op)] + P.Expr(e.right, m + 1))
    ensures Readable(S, P, e) ==> Readable(S, P, e.left) && Readable(S, P, e.right)
  {
    assert P.Expr(e, m) == P.Expr(e.left, m) + [OpToken(e.op)] + P.Expr(e.right, m + 1);
  }

  lemma AssignText(S: Source, P: Pen, e: Expr)
    requires e.Assign?
    ensures P.Expr(e, 0) == P.Expr(e.target, 1) + ([ASSIGN] + P.Expr(e.source, 0))
    ensures Readable(S, P, e) ==> Readable(S, P, e.target) && Readable(S, P, e.source)
  {
  }

  /** Which tokens prolong at which level. */
  lemma OpTokenLevel(op: BinOp)
    ensures TokenLevel(OpToken(op).kind) == OpLevel(op)
  {
  }

  lemma ClosingTokens(k: TokenKind)
    ensures k in {TRParen, TRBracket, TComma} ==> !Continues(0, k)
  {
  }

  lemma NoLevelSeven(k: TokenKind)
    ensures Continues(7, k) <==> Continues(8, k)
  {
  }

  lemma CallTokens(k: TokenKind)
    ensures Continues(8, k) <==> k in {TLParen, TDot, TLBracket}
  {
  }

  // ----- the ladder -----

  /** What the parser reads at a level of the grammar. */
  function ParseAt(S: Source, m: nat, c: Cursor): (Expr, Cursor)
    requires S.On(c) && m <= 9
  {
    if m == 0 then S.ParseAssignment(c)
    else if m <= 6 then S.ParseBinary(m, c)
    else if m == 7 then S.ParseUnary(c)
    else if m == 8 then S.ParseCall(c)
    else S.ParsePrimary(c)
  }

  ghost function Rank(e: Expr, m: nat): nat
    requires m <= 9
  {
    if m <= Level(e) then Level(e) - m else 20 - m
  }

  /** `e`, as printed for level `m`, stands at `c`, and what follows does not prolong it
      at level `stop`. */
  ghost predicate Ready(S: Source, P: Pen, e: Expr, m: nat, stop: nat, c: Cursor) {
    Readable(S, P, e) && m <= 9 && S.On(c) && Stands(S, c, P.Expr(e, m))
    && !Continues(stop, S.Current(Past(c, P.Expr(e, m))).kind)
  }

  // ----- one step of each parsing function -----

  lemma OperandAt(S: Source, m: nat, c: Cursor)
    requires S.On(c) && 1 <= m <= 6
    ensures S.ParseOperand(m, c) == ParseAt(S, m + 1, c)
    ensures S.ParseBinary(m, c) == var (e, c1) := S.ParseOperand(m, c); S.BinaryLoop(m, e, c1)
  {
    hide Source.ParseUnary, Source.BinaryLoop;
  }

  lemma BinaryLoopStep(S: Source, m: nat, left: Expr, c: Cursor)
    requires S.On(c) && 1 <= m <= 6
    ensures S.BinaryLoop(m, left, c) ==
      var op := OperatorAt(m, S.Current(c).kind);
      if op.None? then (left, c)
      else
        var (right, c1) := S.ParseOperand(m, S.Advance(c));
        S.BinaryLoop(m, Binary(op.value, left, right), c1)
  {
    hide Source.ParseOperand;
  }

  lemma CallLoopStep(S: Source, e: Expr, c: Cursor)
    requires S.On(c)
    ensures S.Check(c, TLParen) ==>
      var (args, c1) := S.ParseElements(S.Advance(c), TRParen);
      S.CallLoop(e, c) == S.CallLoop(Call(e, args), S.Consume(c1, TRParen))
    ensures S.Check(c, TDot) ==>
      var c1 := S.Consume(S.Advance(c), TIdent);
      S.CallLoop(e, c) == S.CallLoop(Dot(e, c1.previous.text), c1)
    ensures S.Check(c, TLBracket) ==>
      var (i, c1) := S.ParseExpression(S.Advance(c));
      S.CallLoop(e, c) == S.CallLoop(Index(e, i), S.Consume(c1, TRBracket))
    ensures !Continues(8, S.Current(c).kind) ==> S.CallLoop(e, c) == (e, c)
  {
    hide Source.ParseElements, Source.ParseExpression, Source.Consume, Source.Advance, Source.Current, Continues,
         TokenLevel;
    CallTokens(S.Current(c).kind);
  }

  lemma CallStart(S: Source, c: Cursor)
    requires S.On(c)
    ensures S.ParseCall(c) == var (e, c1) := S.ParsePrimary(c); S.CallLoop(e, c1)
  {
    hide Source.ParsePrimary, Source.CallLoop;
  }

  lemma UnaryStep(S: Source, c: Cursor)
    requires S.On(c)
    ensures S.Check(c, TMinus) ==> S.ParseUnary(c) == var (e, c1) := S.ParseUnary(S.Advance(c)); (Unary(Negate, e), c1)
    ensures S.Check(c, TNot) ==> S.ParseUnary(c) == var (e, c1) := S.ParseUnary(S.Advance(c)); (Unary(Not, e), c1)
    ensures !S.Check(c, TMinus) && !S.Check(c, TNot) ==> S.ParseUnary(c) == S.ParseCall(c)
  {
    hide Source.ParseCall;
  }

  lemma AssignmentStep(S: Source, c: Cursor)
    requires S.On(c)
    ensures S.ParseAssignment(c) ==
      var (left, c1) := S.ParseBinary(1, c);
      if S.Check(c1, TAssign) then var (value, c2) := S.ParseAssignment(S.Advance(c1)); (Assign(left, value), c2)
      else (left, c1)
  {
    hide Source.ParseBinary;
  }

  lemma ElementsStep(S: Source, c: Cursor, close: TokenKind)
    requires S.On(c)
    ensures S.ParseElements(c, close) == if S.Check(c, close) then ([], c) else S.ParseCommaList(c)
    ensures S.ParseExpression(c) == ParseAt(S, 0, c)
  {
    hide Source.ParseCommaList, Source.ParseAssignment;
  }

  /** A printed number is read as itself. */
  lemma IntTextReads(n: int)
    requires 0 <= n <= INT64_MAX
    ensures ParseInt(IntText(n)) == n
  {
    ParseIntText(n, []);
    assert IntText(n) + [] == IntText(n);
  }

  predicate OneToken(e: Expr) {
    Level(e) == 9 && !e.ArrayLit?
  }

  lemma AtomReads(S: Source, P: Pen, e: Expr, c: Cursor)
    requires S.On(c) && Readable(S, P, e) && OneToken(e) && Stands(S, c, P.Bare(e))
    ensures S.ParsePrimary(c) == (e, Past(c, P.Bare(e)))
  {
    hide Source.ParseElements, Source.ParseExpression, ParseInt;
    StandsOne(S, c, P.Bare(e)[0]);
    if e.IntLit? {
      IntTextReads(e.value);
    }
  }

  // ----- the ladder, level by level -----

  /** What level `m` of the grammar reads from an expression printed for that level. */
  lemma {:induction false} Reads(S: Source, P: Pen, e: Expr, m: nat, c: Cursor)
    requires Ready(S, P, e, m, m, c)
    ensures ParseAt(S, m, c) == (e, Past(c, P.Expr(e, m)))
    decreases e, Rank(e, m), 2
  {
    hide Source.ParsePrimary, Source.ParseCall, Source.ParseUnary, Source.ParseBinary, Source.ParseAssignment,
         Source.CallLoop,
         Source.BinaryLoop, Pen.Expr, Readable, Past, Stands;
    var end := Past(c, P.Expr(e, m));
    if m == 0 {
      ReadsAssignment(S, P, e, c);
    } else if m <= 6 {
      ReadsBinary(S, P, e, m, c);
      BinaryLoopStep(S, m, e, end);
    } else if m == 7 {
      ReadsUnary(S, P, e, c);
    } else if m == 8 {
      ReadsCall(S, P, e, c);
      CallLoopStep(S, e, end);
    } else {
      ReadsPrimary(S, P, e, c);
    }
  }

  lemma {:induction false} ReadsAssignment(S: Source, P: Pen, e: Expr, c: Cursor)
    requires Ready(S, P, e, 0, 0, c)
    ensures S.ParseAssignment(c) == (e, Past(c, P.Expr(e, 0)))
    decreases e, Rank(e, 0), 1
  {
    hide Source.ParseBinary, Source.ParseAssignment, Pen.Expr, Pen.Bare, Readable, Stands, Past;
    AssignmentStep(S, c);
    if e.Assign? {
      AssignText(S, P, e);
      var a, b := P.Expr(e.target, 1), P.Expr(e.source, 0);
      StandsSplit(S, c, a, [ASSIGN] + b);
      StandsFirst(S, Past(c, a), ASSIGN, b);
      Reads(S, P, e.target, 1, c);
      Reads(S, P, e.source, 0, Past(Past(c, a), [ASSIGN]));
    } else {
      SameText(P, e, 0);
      Reads(S, P, e, 1, c);
    }
  }

  lemma {:induction false} ReadsBinary(S: Source, P: Pen, e: Expr, m: nat, c: Cursor)
    requires 1 <= m <= 6 && Ready(S, P, e, m, m + 1, c)
    ensures S.ParseBinary(m, c) == S.BinaryLoop(m, e, Past(c, P.Expr(e, m)))
    decreases e, Rank(e, m), 1
  {
    hide Source.ParseBinary, Source.BinaryLoop, Source.ParseOperand, ParseAt, Pen.Expr, Pen.Bare, Readable, Stands,
         Past, TokenLevel, OpToken;
    OperandAt(S, m, c);
    if Level(e) == m {
      BinaryText(S, P, e, m);
      OpTokenLevel(e.op);
      var a, t, b := P.Expr(e.left, m), OpToken(e.op), P.Expr(e.right, m + 1);
      StandsSplit(S, c, a, [t] + b);
      var c1 := Past(c, a);
      StandsFirst(S, c1, t, b);
      ReadsBinary(S, P, e.left, m, c);
      Reads(S, P, e.right, m + 1, Past(c1, [t]));
      OperandAt(S, m, Past(c1, [t]));
      BinaryLoopStep(S, m, e.left, c1);
    } else {
      SameText(P, e, m);
      Reads(S, P, e, m + 1, c);
    }
  }

  lemma {:induction false} ReadsUnary(S: Source, P: Pen, e: Expr, c: Cursor)
    requires Ready(S, P, e, 7, 7, c)
    ensures S.ParseUnary(c) == (e, Past(c, P.Expr(e, 7)))
    decreases e, Rank(e, 7), 1
  {
    hide Source.ParseUnary, Source.ParseCall, Pen.Expr, Pen.Bare, Readable, Stands, Past, TokenLevel;
    UnaryStep(S, c);
    if e.Unary? {
      UnaryText(S, P, e);
      var t, a := UnOpToken(e.unop), P.Expr(e.operand, 7);
      StandsFirst(S, c, t, a);
      Reads(S, P, e.operand, 7, Past(c, [t]));
    } else {
      SameText(P, e, 7);
      ExprFirst(P, e, 8);
      StandsHead(S, c, P.Expr(e, 8));
      Reads(S, P, e, 8, c);
    }
  }

  /** Whatever follows, reading a call or access first rebuilds `e`. */
  lemma {:induction false} ReadsCall(S: Source, P: Pen, e: Expr, c: Cursor)
    requires Ready(S, P, e, 8, 9, c)
    ensures S.ParseCall(c) == S.CallLoop(e, Past(c, P.Expr(e, 8)))
    decreases e, Rank(e, 8), 1
  {
    hide Source.ParsePrimary, Source.ParseCall, Source.CallLoop, Source.ParseExpression, Source.ParseElements;
    if e.Call? {
      ReadsArguments(S, P, e, c);
    } else if e.Dot? {
      var a, t := P.Expr(e.base, 8), Name(e.field);
      assert P.Expr(e, 8) == a + ([DOT] + [t]);
      StandsSplit(S, c, a, [DOT] + [t]);
      StandsFirst(S, Past(c, a), DOT, [t]);
      StandsOne(S, Past(Past(c, a), [DOT]), t);
      ReadsCall(S, P, e.base, c);
      CallLoopStep(S, e.base, Past(c, a));
    } else if e.Index? {
      ReadsIndex(S, P, e, c);
    } else {
      SameText(P, e, 8);
      CallStart(S, c);
      Reads(S, P, e, 9, c);
    }
  }

  lemma {:induction false} ReadsArguments(S: Source, P: Pen, e: Expr, c: Cursor)
    requires e.Call? && Ready(S, P, e, 8, 9, c)
    ensures S.ParseCall(c) == S.CallLoop(e, Past(c, P.Expr(e, 8)))
    decreases e, Rank(e, 8), 0
  {
    hide Source.ParsePrimary, Source.ParseCall, Source.CallLoop, Source.ParseExpression, Source.ParseElements;
    var a, b := P.Expr(e.callee, 8), P.List(e.args);
    assert P.Expr(e, 8) == a + ([LPAREN] + (b + [RPAREN]));
    StandsSplit(S, c, a, [LPAREN] + (b + [RPAREN]));
    var c1 := Past(c, a);
    StandsFirst(S, c1, LPAREN, b + [RPAREN]);
    ReadsCall(S, P, e.callee, c);
    CallLoopStep(S, e.callee, c1);
    ReadsElements(S, P, e.args, RPAREN, Past(c1, [LPAREN]));
  }

  lemma {:induction false} ReadsIndex(S: Source, P: Pen, e: Expr, c: Cursor)
    requires e.Index? && Ready(S, P, e, 8, 9, c)
    ensures S.ParseCall(c) == S.CallLoop(e, Past(c, P.Expr(e, 8)))
    decreases e, Rank(e, 8), 0
  {
    hide Source.ParsePrimary, Source.ParseCall, Source.CallLoop, Source.ParseExpression, Source.ParseElements;
    var a, b := P.Expr(e.base, 8), P.Expr(e.index, 0);
    assert P.Expr(e, 8) == a + ([LBRACKET] + (b + [RBRACKET]));
    StandsSplit(S, c, a, [LBRACKET] + (b + [RBRACKET]));
    var c1 := Past(c, a);
    StandsFirst(S, c1, LBRACKET, b + [RBRACKET]);
    ReadsCall(S, P, e.base, c);
    CallLoopStep(S, e.base, c1);
    ReadsClosed(S, P, e.index, RBRACKET, Past(c1, [LBRACKET]));
  }

  /** An expression and a closing token, which is taken too. */
  lemma {:induction false} ReadsClosed(S: Source, P: Pen, e: Expr, close: Token, c: Cursor)
    requires Readable(S, P, e) && close.kind in {TRParen, TRBracket} && Stands(S, c, P.Expr(e, 0) + [close])
    ensures S.On(c)
    ensures
      var (e', c1) := S.ParseExpression(c);
      e' == e && S.Consume(c1, close.kind) == Past(c, P.Expr(e, 0) + [close])
    decreases e, 10, 0
  {
    hide Source.ParseExpression, Source.ParseElements, Source.ParseAssignment, Pen.Expr, Pen.Bare, Readable, Stands,
         Past,
         TokenLevel, Source.Advance;
    ClosingTokens(close.kind);
    var a := P.Expr(e, 0);
    StandsSplit(S, c, a, [close]);
    StandsOne(S, Past(c, a), close);
    ElementsStep(S, c, TRParen);
    Reads(S, P, e, 0, c);
  }

  lemma {:induction false} ReadsElements(S: Source, P: Pen, es: seq<Expr>, close: Token, c: Cursor)
    requires forall i :: 0 <= i < |es| ==> Readable(S, P, es[i])
    requires close.kind in {TRParen, TRBracket} && Stands(S, c, P.List(es) + [close])
    ensures S.On(c)
    ensures
      var (es', c1) := S.ParseElements(c, close.kind);
      es' == es && S.Consume(c1, close.kind) == Past(c, P.List(es) + [close])
    decreases es, 1
  {
    hide Source.ParseExpression, Source.ParseElements, Source.ParseCommaList, Source.ParseAssignment, Pen.List,
         Stands, Past, Readable;
    StandsHead(S, c, P.List(es) + [close]);
    ElementsStep(S, c, close.kind);
    if es == [] {
      assert P.List(es) + [close] == [close] by { ListEmpty(P); }
      StandsOne(S, c, close);
    } else {
      ListFirst(P, es);
      assert (P.List(es) + [close])[0] == P.List(es)[0];
      ReadsCommaList(S, P, es, close, c);
    }
  }

  lemma ListEmpty(P: Pen)
    ensures P.List([]) == []
  {
  }

  /** A list by its first element. */
  lemma ListText(P: Pen, es: seq<Expr>, tail: seq<Token>)
    requires es != []
    ensures P.List(es) + tail ==
      P.Expr(es[0], 0) + if |es| == 1 then tail else [COMMA] + (P.List(es[1..]) + tail)
  {
    hide Pen.Expr, Pen.List;
    ListStep(P, es);
    if |es| > 1 {
      var a, b := P.Expr(es[0], 0), P.List(es[1..]);
      assert a + [COMMA] + b + tail == a + ([COMMA] + (b + tail));
    }
  }

  lemma ListStep(P: Pen, es: seq<Expr>)
    requires es != []
    ensures P.List(es) == if |es| == 1 then P.Expr(es[0], 0) else P.Expr(es[0], 0) + [COMMA] + P.List(es[1..])
  {
    hide Pen.Expr;
  }

  lemma ListFirst(P: Pen, es: seq<Expr>)
    requires es != []
    ensures P.List(es) != [] && StartsExpr(P.List(es)[0].kind)
  {
    hide Pen.Expr;
    ExprFirst(P, es[0], 0);
  }

  lemma {:induction false} ReadsCommaList(S: Source, P: Pen, es: seq<Expr>, close: Token, c: Cursor)
    requires es != [] && forall i :: 0 <= i < |es| ==> Readable(S, P, es[i])
    requires close.kind in {TRParen, TRBracket} && Stands(S, c, P.List(es) + [close])
    ensures S.On(c)
    ensures
      var (es', c1) := S.ParseCommaList(c);
      es' == es && S.Consume(c1, close.kind) == Past(c, P.List(es) + [close])
    decreases es, 0
  {
    hide Source.ParseExpression, Source.ParseElements, Source.ParseCommaList, Source.ParseAssignment, Pen.Expr,
         Pen.List, Stands, Past,
         Readable, TokenLevel;
    StandsHead(S, c, P.List(es) + [close]);
    S.CommaListFirst(c);
    ElementsStep(S, c, close.kind);
    ListText(P, es, [close]);
    ClosingTokens(close.kind);
    var a := P.Expr(es[0], 0);
    if |es| == 1 {
      assert es == [es[0]];
      StandsSplit(S, c, a, [close]);
      StandsOne(S, Past(c, a), close);
      Reads(S, P, es[0], 0, c);
    } else {
      var b := P.List(es[1..]) + [close];
      StandsSplit(S, c, a, [COMMA] + b);
      StandsFirst(S, Past(c, a), COMMA, b);
      ClosingTokens(TComma);
      Reads(S, P, es[0], 0, c);
      ReadsCommaList(S, P, es[1..], close, Past(Past(c, a), [COMMA]));
      assert es == [es[0]] + es[1..];
    }
  }

  lemma {:induction false} ReadsPrimary(S: Source, P: Pen, e: Expr, c: Cursor)
    requires Ready(S, P, e, 9, 9, c)
    ensures S.ParsePrimary(c) == (e, Past(c, P.Expr(e, 9)))
    decreases e, Rank(e, 9), 1
  {
    hide Source.ParsePrimary, Source.ParseExpression, Source.ParseElements;
    S.PrimarySteps(c);
    if Level(e) < 9 {
      SameBare(P, e);
      assert P.Expr(e, 9) == [LPAREN] + (P.Expr(e, 0) + [RPAREN]);
      StandsFirst(S, c, LPAREN, P.Expr(e, 0) + [RPAREN]);
      ReadsClosed(S, P, e, RPAREN, Past(c, [LPAREN]));
    } else if e.ArrayLit? {
      assert P.Expr(e, 9) == [LBRACKET] + (P.List(e.elements) + [RBRACKET]);
      StandsFirst(S, c, LBRACKET, P.List(e.elements) + [RBRACKET]);
      ReadsElements(S, P, e.elements, RBRACKET, Past(c, [LBRACKET]));
    } else {
      AtomReads(S, P, e, c);
    }
  }

  lemma SameBare(P: Pen, e: Expr)
    ensures P.Expr(e, 0) == P.Bare(e)
  {
  }

  /** Reading an expression back: the same tree, exactly its tokens, no error. */
  lemma ExprReads(S: Source, P: Pen, e: Expr, c: Cursor)
    requires Ready(S, P, e, 0, 0, c)
    ensures S.ParseExpression(c) == (e, Past(c, P.Expr(e, 0))) && S.On(Past(c, P.Expr(e, 0)))
  {
    hide Source.ParseExpression, Source.ParseAssignment;
    ElementsStep(S, c, TRParen);
    Reads(S, P, e, 0, c);
  }
}
