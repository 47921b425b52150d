/** The parser takes nothing that is not in the grammar: where it reports no error, what it
    has taken is the tree that it gives. */
module ParserSound {
  import opened Decimal
  import opened Values
  import opened Ast
  import opened Tokens
  import opened Syntax
  import opened Printer
  import opened ExprRoundTrip
  import opened Separation
  import opened Grammar

  // ----- errors are kept -----

  predicate Fine(c: Cursor) {
    !c.hadError && !c.panic
  }

  /** An error is not taken back from `c` to `c'`, and none goes unrecorded. */
  predicate Kept(c: Cursor, c': Cursor) {
    (Fine(c') ==> Fine(c)) && (c.hadError ==> c'.hadError)
    && ((c.panic ==> c.hadError) ==> (c'.panic ==> c'.hadError))
  }

  /** A token of another kind is an error. */
  lemma Takes(S: Source, c: Cursor, k: TokenKind)
    requires S.On(c) && k != TEof
    ensures
      var c1 := S.Consume(c, k);
      && Kept(c, c1)
      && (Fine(c1) ==> Kind(S, c.pos) == k && c1.pos == c.pos + 1 && S.tokens[c.pos] == c1.previous)
  {
  }

  lemma TakesName(S: Source, c: Cursor)
    requires S.On(c)
    ensures
      var c1 := S.Consume(c, TIdent);
      Kept(c, c1) && (Fine(c1) ==> c1.pos == c.pos + 1 && NameAt(S, c.pos, c1.previous.text))
  {
  }

  /** The token that was checked is taken. */
  lemma Advances(S: Source, c: Cursor)
    requires S.On(c)
    ensures
      var c1 := S.Advance(c);
      && Kept(c, c1) && Kept(c1, c) && Kind(S, c.pos) == S.Current(c).kind
      && (c.pos < |S.tokens| ==> c1.pos == c.pos + 1)
      && (Kind(S, c.pos) != TEof ==> c.pos < |S.tokens| && S.Left(c1) < S.Left(c))
  {
  }

  // ----- the rules of the grammar -----

  lemma RuleUp(S: Source, i: nat, j: nat, m: nat, e: Expr)
    requires m < 9 && ExprAt(S, i, j, m + 1, e)
    ensures ExprAt(S, i, j, m, e)
  {
  }

  lemma RuleAssign(S: Source, i: nat, k: nat, j: nat, target: Expr, source: Expr)
    requires ExprAt(S, i, k, 1, target) && Kind(S, k) == TAssign && ExprAt(S, k + 1, j, 0, source)
    ensures ExprAt(S, i, j, 0, Assign(target, source))
  {
    assert AssignAt(S, i, k, j, Assign(target, source));
  }

  lemma RuleBinary(S: Source, i: nat, k: nat, j: nat, op: BinOp, left: Expr, right: Expr)
    requires ExprAt(S, i, k, OpLevel(op), left) && Kind(S, k) == OpToken(op).kind
    requires ExprAt(S, k + 1, j, OpLevel(op) + 1, right)
    ensures ExprAt(S, i, j, OpLevel(op), Binary(op, left, right))
  {
    hide OpToken, OpLevel;
    assert BinaryAt(S, i, k, j, OpLevel(op), Binary(op, left, right));
  }

  lemma RuleUnary(S: Source, i: nat, j: nat, op: UnOp, e: Expr)
    requires Kind(S, i) == (match op case Negate => TMinus case Not => TNot) && ExprAt(S, i + 1, j, 7, e)
    ensures ExprAt(S, i, j, 7, Unary(op, e))
  {
    assert UnaryAt(S, i, j, Unary(op, e));
  }

  lemma RuleCall(S: Source, i: nat, k: nat, j: nat, callee: Expr, args: seq<Expr>)
    requires ExprAt(S, i, k, 8, callee) && Kind(S, k) == TLParen && ListAt(S, k + 1, j, args) && Kind(S, j) == TRParen
    ensures ExprAt(S, i, j + 1, 8, Call(callee, args))
  {
    assert CallAt(S, i, k, j + 1, Call(callee, args));
  }

  lemma RuleDot(S: Source, i: nat, k: nat, base: Expr, field: string)
    requires ExprAt(S, i, k, 8, base) && Kind(S, k) == TDot && NameAt(S, k + 1, field)
    ensures ExprAt(S, i, k + 2, 8, Dot(base, field))
  {
    assert CallAt(S, i, k, k + 2, Dot(base, field));
  }

  lemma RuleIndex(S: Source, i: nat, k: nat, j: nat, base: Expr, index: Expr)
    requires ExprAt(S, i, k, 8, base) && Kind(S, k) == TLBracket && ExprAt(S, k + 1, j, 0, index)
    requires Kind(S, j) == TRBracket
    ensures ExprAt(S, i, j + 1, 8, Index(base, index))
  {
    assert CallAt(S, i, k, j + 1, Index(base, index));
  }

  lemma RuleAtom(S: Source, i: nat, e: Expr)
    requires i < |S.tokens| && AtomAt(S, i, e)
    ensures ExprAt(S, i, i + 1, 9, e)
  {
    hide AtomAt;
  }

  lemma RuleParen(S: Source, i: nat, j: nat, e: Expr)
    requires Kind(S, i) == TLParen && ExprAt(S, i + 1, j, 0, e) && Kind(S, j) == TRParen
    ensures ExprAt(S, i, j + 1, 9, e)
  {
    assert PrimaryAt(S, i, j + 1, e);
  }

  lemma RuleArray(S: Source, i: nat, j: nat, es: seq<Expr>)
    requires Kind(S, i) == TLBracket && ListAt(S, i + 1, j, es) && Kind(S, j) == TRBracket
    ensures ExprAt(S, i, j + 1, 9, ArrayLit(es))
  {
    assert PrimaryAt(S, i, j + 1, ArrayLit(es));
  }

  lemma RuleList(S: Source, i: nat, k: nat, j: nat, e: Expr, es: seq<Expr>)
    requires ExprAt(S, i, k, 0, e)
    requires if es == [] then j == k else Kind(S, k) == TComma && ListAt(S, k + 1, j, es)
    ensures ListAt(S, i, j, [e] + es)
  {
    if es == [] {
      assert [e] + es == [e];
    } else {
      assert ([e] + es)[1..] == es;
      assert CommaAt(S, i, k, j, [e] + es);
    }
  }

  // ----- expressions -----

  /** What the parser takes at level `m` without an error is an expression of that level. */
  lemma {:induction false} LevelSound(S: Source, m: nat, c: Cursor)
    requires S.On(c) && m <= 9
    ensures
      var (e, c1) := ParseAt(S, m, c);
      S.On(c1) && Kept(c, c1) && (Fine(c1) ==> ExprAt(S, c.pos, c1.pos, m, e))
    decreases S.Left(c), 40 - m
  {
    hide Source.ParsePrimary, Source.ParseCall, Source.ParseUnary, Source.ParseBinary, Source.ParseAssignment,
         Source.CallLoop, Source.BinaryLoop, Source.Advance, ExprAt;
    if m == 0 {
      AssignmentSound(S, c);
    } else if m <= 6 {
      OperandAt(S, m, c);
      LevelSound(S, m + 1, c);
      var (e, c1) := S.ParseOperand(m, c);
      if Fine(c1) {
        RuleUp(S, c.pos, c1.pos, m, e);
      }
      BinaryLoopSound(S, m, e, c.pos, c1);
    } else if m == 7 {
      UnarySound(S, c);
    } else if m == 8 {
      CallStart(S, c);
      LevelSound(S, 9, c);
      var (e, c1) := S.ParsePrimary(c);
      if Fine(c1) {
        RuleUp(S, c.pos, c1.pos, 8, e);
      }
      CallLoopSound(S, e, c.pos, c1);
    } else {
      PrimarySound(S, c);
    }
  }

  lemma {:induction false} AssignmentSound(S: Source, c: Cursor)
    requires S.On(c)
    ensures
      var (e, c1) := S.ParseAssignment(c);
      S.On(c1) && Kept(c, c1) && (Fine(c1) ==> ExprAt(S, c.pos, c1.pos, 0, e))
    decreases S.Left(c), 40, 0
  {
    hide Source.ParseBinary, Source.ParseAssignment, Source.Advance, ExprAt;
    AssignmentStep(S, c);
    LevelSound(S, 1, c);
    var (left, c1) := S.ParseBinary(1, c);
    if S.Check(c1, TAssign) {
      Advances(S, c1);
      AssignmentSound(S, S.Advance(c1));
      var (value, c2) := S.ParseAssignment(S.Advance(c1));
      if Fine(c2) {
        RuleAssign(S, c.pos, c1.pos, c2.pos, left, value);
      }
    } else if Fine(c1) {
      RuleUp(S, c.pos, c1.pos, 0, left);
    }
  }

  lemma OperatorKinds(m: nat, k: TokenKind)
    requires OperatorAt(m, k).Some?
    ensures
      var op := OperatorAt(m, k).value;
      OpLevel(op) == m && OpToken(op).kind == k && 1 <= m <= 6 && k != TEof
  {
  }

  /** The loop of a binary level goes on from an expression of that level. */
  lemma {:induction false} BinaryLoopSound(S: Source, m: nat, left: Expr, i: nat, c: Cursor)
    requires S.On(c) && 1 <= m <= 6 && (Fine(c) ==> ExprAt(S, i, c.pos, m, left))
    ensures
      var (e, c1) := S.BinaryLoop(m, left, c);
      S.On(c1) && Kept(c, c1) && (Fine(c1) ==> ExprAt(S, i, c1.pos, m, e))
    decreases S.Left(c), 0
  {
    hide Source.BinaryLoop, Source.ParseOperand, Source.Advance, ExprAt, OperatorAt;
    BinaryLoopStep(S, m, left, c);
    var k := S.Current(c).kind;
    var op := OperatorAt(m, k);
    if op.Some? {
      OperatorKinds(m, k);
      Advances(S, c);
      var next := S.Advance(c);
      OperandAt(S, m, next);
      LevelSound(S, m + 1, next);
      var (right, c1) := S.ParseOperand(m, next);
      if Fine(c1) {
        RuleBinary(S, i, c.pos, c1.pos, op.value, left, right);
      }
      BinaryLoopSound(S, m, Binary(op.value, left, right), i, c1);
    }
  }

  lemma {:induction false} UnarySound(S: Source, c: Cursor)
    requires S.On(c)
    ensures
      var (e, c1) := S.ParseUnary(c);
      S.On(c1) && Kept(c, c1) && (Fine(c1) ==> ExprAt(S, c.pos, c1.pos, 7, e))
    decreases S.Left(c), 33, 1
  {
    hide Source.ParseUnary, Source.ParseCall, Source.Advance, ExprAt;
    UnaryStep(S, c);
    if S.Check(c, TMinus) || S.Check(c, TNot) {
      Advances(S, c);
      UnarySound(S, S.Advance(c));
      var (e, c1) := S.ParseUnary(S.Advance(c));
      if Fine(c1) {
        RuleUnary(S, c.pos, c1.pos, if S.Check(c, TMinus) then Negate else Not, e);
      }
    } else {
      LevelSound(S, 8, c);
      var (e, c1) := S.ParseCall(c);
      if Fine(c1) {
        RuleUp(S, c.pos, c1.pos, 7, e);
      }
    }
  }

  /** The loop over calls and accesses goes on from such an expression. */
  lemma {:induction false} CallLoopSound(S: Source, e: Expr, i: nat, c: Cursor)
    requires S.On(c) && (Fine(c) ==> ExprAt(S, i, c.pos, 8, e))
    ensures
      var (e1, c1) := S.CallLoop(e, c);
      S.On(c1) && Kept(c, c1) && (Fine(c1) ==> ExprAt(S, i, c1.pos, 8, e1))
    decreases S.Left(c), 1
  {
    hide Source.CallLoop, Source.ParseElements, Source.ParseExpression, Source.Consume, Source.Advance, ExprAt, ListAt,
         TokenLevel, NameAt, Continues, Source.Current;
    CallLoopStep(S, e, c);
    CallTokens(S.Current(c).kind);
    var k, next := S.Current(c).kind, S.Advance(c);
    Advances(S, c);
    if k == TLParen {
      ArgumentsSound(S, e, i, c);
      var (args, c1) := S.ParseElements(next, TRParen);
      CallLoopSound(S, Call(e, args), i, S.Consume(c1, TRParen));
    } else if k == TDot {
      FieldSound(S, e, i, c);
      var c1 := S.Consume(next, TIdent);
      CallLoopSound(S, Dot(e, c1.previous.text), i, c1);
    } else if k == TLBracket {
      IndexSound(S, e, i, c);
      var (index, c1) := S.ParseExpression(next);
      CallLoopSound(S, Index(e, index), i, S.Consume(c1, TRBracket));
    }
  }

  lemma {:induction false} ArgumentsSound(S: Source, e: Expr, i: nat, c: Cursor)
    requires S.On(c) && S.Check(c, TLParen) && (Fine(c) ==> ExprAt(S, i, c.pos, 8, e))
    ensures
      var (args, c1) := S.ParseElements(S.Advance(c), TRParen);
      var c2 := S.Consume(c1, TRParen);
      Kept(c, c2) && (Fine(c2) ==> ExprAt(S, i, c2.pos, 8, Call(e, args)))
    decreases S.Left(c), 0
  {
    hide Source.ParseElements, Source.Consume, Source.Advance, ExprAt, ListAt;
    Advances(S, c);
    ElementsSound(S, TRParen, S.Advance(c));
    var (args, c1) := S.ParseElements(S.Advance(c), TRParen);
    Takes(S, c1, TRParen);
    if Fine(S.Consume(c1, TRParen)) {
      RuleCall(S, i, c.pos, c1.pos, e, args);
    }
  }

  lemma FieldSound(S: Source, e: Expr, i: nat, c: Cursor)
    requires S.On(c) && S.Check(c, TDot) && (Fine(c) ==> ExprAt(S, i, c.pos, 8, e))
    ensures
      var c1 := S.Consume(S.Advance(c), TIdent);
      Kept(c, c1) && (Fine(c1) ==> ExprAt(S, i, c1.pos, 8, Dot(e, c1.previous.text)))
  {
    hide Source.Consume, Source.Advance, ExprAt, NameAt;
    Advances(S, c);
    TakesName(S, S.Advance(c));
    var c1 := S.Consume(S.Advance(c), TIdent);
    if Fine(c1) {
      RuleDot(S, i, c.pos, e, c1.previous.text);
    }
  }

  lemma {:induction false} IndexSound(S: Source, e: Expr, i: nat, c: Cursor)
    requires S.On(c) && S.Check(c, TLBracket) && (Fine(c) ==> ExprAt(S, i, c.pos, 8, e))
    ensures
      var (index, c1) := S.ParseExpression(S.Advance(c));
      var c2 := S.Consume(c1, TRBracket);
      Kept(c, c2) && (Fine(c2) ==> ExprAt(S, i, c2.pos, 8, Index(e, index)))
    decreases S.Left(c), 0
  {
    hide Source.ParseExpression, Source.Consume, Source.Advance, ExprAt;
    Advances(S, c);
    ExprSound(S, S.Advance(c));
    var (index, c1) := S.ParseExpression(S.Advance(c));
    Takes(S, c1, TRBracket);
    if Fine(S.Consume(c1, TRBracket)) {
      RuleIndex(S, i, c.pos, c1.pos, e, index);
    }
  }

  /** An expression, from its first token to its last. */
  lemma {:induction false} ExprSound(S: Source, c: Cursor)
    requires S.On(c)
    ensures
      var (e, c1) := S.ParseExpression(c);
      S.On(c1) && Kept(c, c1) && (Fine(c1) ==> ExprAt(S, c.pos, c1.pos, 0, e))
    decreases S.Left(c), 41
  {
    hide Source.ParseExpression, Source.ParseElements, Source.ParseAssignment, ExprAt;
    ElementsStep(S, c, TRParen);
    LevelSound(S, 0, c);
  }

  lemma {:induction false} ElementsSound(S: Source, close: TokenKind, c: Cursor)
    requires S.On(c)
    ensures
      var (es, c1) := S.ParseElements(c, close);
      S.On(c1) && c.pos <= c1.pos && Kept(c, c1) && (Fine(c1) ==> ListAt(S, c.pos, c1.pos, es))
    decreases S.Left(c), 43
  {
    hide Source.ParseElements, Source.ParseCommaList, Source.ParseExpression;
    ElementsStep(S, c, close);
    if !S.Check(c, close) {
      CommaListSound(S, c);
    }
  }

  lemma {:induction false} CommaListSound(S: Source, c: Cursor)
    requires S.On(c)
    ensures
      var (es, c1) := S.ParseCommaList(c);
      S.On(c1) && Kept(c, c1) && es != [] && (Fine(c1) ==> ListAt(S, c.pos, c1.pos, es))
    decreases S.Left(c), 42
  {
    hide Source.ParseCommaList, Source.ParseExpression, Source.Advance, ExprAt, ListAt;
    S.CommaListFirst(c);
    ExprSound(S, c);
    var (e, c1) := S.ParseExpression(c);
    if S.Check(c1, TComma) {
      Advances(S, c1);
      CommaListSound(S, S.Advance(c1));
      var (es, c2) := S.ParseCommaList(S.Advance(c1));
      if Fine(c2) {
        RuleList(S, c.pos, c1.pos, c2.pos, e, es);
      }
    } else if Fine(c1) {
      RuleList(S, c.pos, c1.pos, c1.pos, e, []);
    }
  }

  /** A single token, or an error. */
  lemma AtomSound(S: Source, c: Cursor)
    requires S.On(c) && !S.Check(c, TLParen) && !S.Check(c, TLBracket)
    ensures
      var (e, c1) := S.ParsePrimary(c);
      S.On(c1) && Kept(c, c1) && (Fine(c1) ==> ExprAt(S, c.pos, c1.pos, 9, e))
  {
    hide Source.ParseElements, Source.ParseExpression, ParseInt, ExprAt;
    var (e, c1) := S.ParsePrimary(c);
    if Fine(c1) {
      assert AtomAt(S, c.pos, e);
      RuleAtom(S, c.pos, e);
    }
  }

  lemma {:induction false} ParenSound(S: Source, c: Cursor)
    requires S.On(c) && S.Check(c, TLParen)
    ensures
      var (e, c1) := S.ParseExpression(S.Advance(c));
      var c2 := S.Consume(c1, TRParen);
      Kept(c, c2) && (Fine(c2) ==> ExprAt(S, c.pos, c2.pos, 9, e))
    decreases S.Left(c), 30
  {
    hide Source.ParseExpression, Source.Consume, Source.Advance, ExprAt;
    Advances(S, c);
    ExprSound(S, S.Advance(c));
    var (e, c1) := S.ParseExpression(S.Advance(c));
    Takes(S, c1, TRParen);
    if Fine(S.Consume(c1, TRParen)) {
      RuleParen(S, c.pos, c1.pos, e);
    }
  }

  lemma {:induction false} ArraySound(S: Source, c: Cursor)
    requires S.On(c) && S.Check(c, TLBracket)
    ensures
      var (es, c1) := S.ParseElements(S.Advance(c), TRBracket);
      var c2 := S.Consume(c1, TRBracket);
      Kept(c, c2) && (Fine(c2) ==> ExprAt(S, c.pos, c2.pos, 9, ArrayLit(es)))
    decreases S.Left(c), 30
  {
    hide Source.ParseElements, Source.Consume, Source.Advance, ExprAt, ListAt;
    Advances(S, c);
    ElementsSound(S, TRBracket, S.Advance(c));
    var (es, c1) := S.ParseElements(S.Advance(c), TRBracket);
    Takes(S, c1, TRBracket);
    if Fine(S.Consume(c1, TRBracket)) {
      RuleArray(S, c.pos, c1.pos, es);
    }
  }

  lemma {:induction false} PrimarySound(S: Source, c: Cursor)
    requires S.On(c)
    ensures
      var (e, c1) := S.ParsePrimary(c);
      S.On(c1) && Kept(c, c1) && (Fine(c1) ==> ExprAt(S, c.pos, c1.pos, 9, e))
    decreases S.Left(c), 31, 0
  {
    hide Source.ParsePrimary, Source.ParseElements, Source.ParseExpression, Source.Consume, Source.Advance, ExprAt;
    S.PrimarySteps(c);
    if S.Check(c, TLParen) {
      ParenSound(S, c);
    } else if S.Check(c, TLBracket) {
      ArraySound(S, c);
    } else {
      AtomSound(S, c);
    }
  }

  // ----- where the parser stops -----

  /** Behind what is taken at level `m` stands a token that does not prolong it. */
  lemma {:induction false} LevelStops(S: Source, m: nat, c: Cursor)
    requires S.On(c) && m <= 8
    ensures var c1 := ParseAt(S, m, c).1; S.On(c1) && !Continues(m, S.Current(c1).kind)
    decreases S.Left(c), 40 - m
  {
    hide Source.ParsePrimary, Source.ParseCall, Source.ParseUnary, Source.ParseBinary, Source.ParseAssignment,
         Source.CallLoop, Source.BinaryLoop, Source.Advance, Source.Current, Continues;
    if m == 0 {
      AssignmentStops(S, c);
    } else if m <= 6 {
      OperandAt(S, m, c);
      LevelStops(S, m + 1, c);
      var (e, c1) := S.ParseOperand(m, c);
      BinaryLoopStops(S, m, e, c1);
    } else if m == 7 {
      UnaryStops(S, c);
    } else {
      CallStart(S, c);
      var (e, c1) := S.ParsePrimary(c);
      CallLoopStops(S, e, c1);
    }
  }

  lemma LevelSteps(m: nat, k: TokenKind)
    requires m <= 6
    ensures Continues(m, k) <==> Continues(m + 1, k) || if m == 0 then k == TAssign else OperatorAt(m, k).Some?
  {
    hide OperatorAt;
  }

  lemma {:induction false} AssignmentStops(S: Source, c: Cursor)
    requires S.On(c)
    ensures var c1 := S.ParseAssignment(c).1; S.On(c1) && !Continues(0, S.Current(c1).kind)
    decreases S.Left(c), 40, 0
  {
    hide Source.ParseBinary, Source.ParseAssignment, Source.Advance, Source.Current, Continues;
    AssignmentStep(S, c);
    LevelStops(S, 1, c);
    var c1 := S.ParseBinary(1, c).1;
    LevelSteps(0, S.Current(c1).kind);
    if S.Check(c1, TAssign) {
      Advances(S, c1);
      AssignmentStops(S, S.Advance(c1));
    }
  }

  lemma {:induction false} BinaryLoopStops(S: Source, m: nat, left: Expr, c: Cursor)
    requires S.On(c) && 1 <= m <= 6 && !Continues(m + 1, S.Current(c).kind)
    ensures var c1 := S.BinaryLoop(m, left, c).1; S.On(c1) && !Continues(m, S.Current(c1).kind)
    decreases S.Left(c), 0
  {
    hide Source.BinaryLoop, Source.ParseOperand, Source.Advance, Source.Current, Continues, OperatorAt;
    BinaryLoopStep(S, m, left, c);
    var k := S.Current(c).kind;
    LevelSteps(m, k);
    var op := OperatorAt(m, k);
    if op.Some? {
      OperatorKinds(m, k);
      Advances(S, c);
      var next := S.Advance(c);
      OperandAt(S, m, next);
      LevelStops(S, m + 1, next);
      var (right, c1) := S.ParseOperand(m, next);
      BinaryLoopStops(S, m, Binary(op.value, left, right), c1);
    }
  }

  lemma {:induction false} UnaryStops(S: Source, c: Cursor)
    requires S.On(c)
    ensures var c1 := S.ParseUnary(c).1; S.On(c1) && !Continues(7, S.Current(c1).kind)
    decreases S.Left(c), 33, 1
  {
    hide Source.ParseUnary, Source.ParseCall, Source.Advance, Source.Current, Continues;
    UnaryStep(S, c);
    if S.Check(c, TMinus) || S.Check(c, TNot) {
      Advances(S, c);
      UnaryStops(S, S.Advance(c));
    } else {
      LevelStops(S, 8, c);
      NoLevelSeven(S.Current(S.ParseCall(c).1).kind);
    }
  }

  lemma {:induction false} CallLoopStops(S: Source, e: Expr, c: Cursor)
    requires S.On(c)
    ensures var c1 := S.CallLoop(e, c).1; S.On(c1) && !Continues(8, S.Current(c1).kind)
    decreases S.Left(c), 1
  {
    hide Source.CallLoop, Source.ParseElements, Source.ParseExpression, Source.Current, Continues;
    if Continues(8, S.Current(c).kind) {
      var e1, c1 := CallLoopRound(S, e, c);
      CallLoopStops(S, e1, c1);
    } else {
      CallLoopStep(S, e, c);
    }
  }

  /** An expression with its end: the token behind it would not prolong it. */
  lemma OpenSound(S: Source, c: Cursor)
    requires S.On(c)
    ensures
      var (e, c1) := S.ParseExpression(c);
      && S.On(c1) && Kept(c, c1) && StopsAt(S, c1.pos)
      && (Fine(c1) ==> ExprAt(S, c.pos, c1.pos, 0, e))
  {
    hide Source.ParseExpression, Source.ParseElements, Source.ParseAssignment, ExprAt, Continues;
    ElementsStep(S, c, TRParen);
    ExprSound(S, c);
    LevelStops(S, 0, c);
  }
}
