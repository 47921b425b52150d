/** The parser takes everything that is in the grammar: expressions. */
module ParserComplete {
  import opened Decimal
  import opened Ast
  import opened Tokens
  import opened Syntax
  import opened Printer
  import opened ExprRoundTrip
  import opened Grammar

  /** The cursor `c` moved to `j`, without an error. */
  function At(S: Source, c: Cursor, j: nat): Cursor
    requires c.pos <= j <= |S.tokens|
  {
    if j == c.pos then c else c.(pos := j, previous := S.tokens[j - 1])
  }

  lemma AtNext(S: Source, c: Cursor, j: nat)
    requires c.pos <= j < |S.tokens|
    ensures S.On(At(S, c, j)) && S.Current(At(S, c, j)) == S.tokens[j] && At(S, c, j).pos == j
    ensures S.Advance(At(S, c, j)) == At(S, c, j + 1) && At(S, c, j + 1).previous == S.tokens[j]
    ensures S.Consume(At(S, c, j), Kind(S, j)) == At(S, c, j + 1)
  {
  }

  lemma AtEnds(S: Source, c: Cursor, j: nat)
    requires c.pos <= j <= |S.tokens|
    ensures S.On(At(S, c, j)) && S.Current(At(S, c, j)).kind == Kind(S, j) && At(S, c, j).pos == j
    ensures At(S, c, j).panic == c.panic && At(S, c, j).hadError == c.hadError
  {
  }

  lemma AtAt(S: Source, c: Cursor, i: nat, j: nat)
    requires c.pos <= i <= j <= |S.tokens|
    ensures At(S, c, i).pos == i && At(S, At(S, c, i), j) == At(S, c, j) && At(S, c, c.pos) == c
  {
  }

  // ----- first tokens -----

  /** What an expression starts with; at level 8 and 9 it is no operator. */
  lemma {:induction false} ExprStart(S: Source, i: nat, j: nat, m: nat, e: Expr)
    requires ExprAt(S, i, j, m, e)
    ensures StartsExpr(Kind(S, i)) && (m >= 8 ==> Kind(S, i) !in {TMinus, TNot})
    decreases j - i, 60 - m
  {
    hide StartsExpr, ListAt, OpLevel, OpToken;
    if m == 0 && exists k: nat :: AssignAt(S, i, k, j, e) {
      var k: nat :| AssignAt(S, i, k, j, e);
      ExprStart(S, i, k, 1, e.target);
    } else if 1 <= m <= 6 && exists k: nat :: BinaryAt(S, i, k, j, m, e) {
      var k: nat :| BinaryAt(S, i, k, j, m, e);
      ExprStart(S, i, k, m, e.left);
    } else if m == 7 && UnaryAt(S, i, j, e) {
      FirstTokens(Kind(S, i));
    } else if m == 8 && exists k: nat :: CallAt(S, i, k, j, e) {
      var k: nat :| CallAt(S, i, k, j, e);
      ExprStart(S, i, k, 8, if e.Call? then e.callee else e.base);
    } else if m < 9 {
      ExprStart(S, i, j, m + 1, e);
    } else {
      FirstTokens(Kind(S, i));
    }
  }

  lemma FirstTokens(k: TokenKind)
    ensures k in {TMinus, TNot, TLParen, TLBracket, TInt, TFloat, TString, TTrue, TFalse, TNil, TIdent} ==>
      StartsExpr(k)
  {
  }

  // ----- what stands at a level -----

  lemma AssignParts(S: Source, i: nat, j: nat, e: Expr) returns (k: nat)
    requires ExprAt(S, i, j, 0, e)
    ensures AssignAt(S, i, k, j, e) || ExprAt(S, i, j, 1, e)
  {
    hide AssignAt;
    k := 0;
    if exists k: nat :: AssignAt(S, i, k, j, e) {
      k :| AssignAt(S, i, k, j, e);
    }
  }

  lemma BinaryParts(S: Source, i: nat, j: nat, m: nat, e: Expr) returns (k: nat)
    requires 1 <= m <= 6 && ExprAt(S, i, j, m, e)
    ensures BinaryAt(S, i, k, j, m, e) || ExprAt(S, i, j, m + 1, e)
  {
    hide BinaryAt;
    k := 0;
    if exists k: nat :: BinaryAt(S, i, k, j, m, e) {
      k :| BinaryAt(S, i, k, j, m, e);
    }
  }

  lemma CallParts(S: Source, i: nat, j: nat, e: Expr) returns (k: nat)
    requires ExprAt(S, i, j, 8, e)
    ensures CallAt(S, i, k, j, e) || ExprAt(S, i, j, 9, e)
  {
    hide CallAt;
    k := 0;
    if exists k: nat :: CallAt(S, i, k, j, e) {
      k :| CallAt(S, i, k, j, e);
    }
  }

  lemma UnaryParts(S: Source, i: nat, j: nat, e: Expr)
    requires ExprAt(S, i, j, 7, e)
    ensures UnaryAt(S, i, j, e) || ExprAt(S, i, j, 8, e)
  {
    hide UnaryAt;
  }

  lemma PrimaryParts(S: Source, i: nat, j: nat, e: Expr)
    requires ExprAt(S, i, j, 9, e)
    ensures PrimaryAt(S, i, j, e)
  {
    hide PrimaryAt;
  }

  // ----- the ladder -----

  /** An expression of level `m` that the next token does not prolong is read at that level. */
  lemma {:induction false} LevelComplete(S: Source, m: nat, e: Expr, c: Cursor, j: nat)
    requires S.On(c) && m <= 9 && ExprAt(S, c.pos, j, m, e) && !Continues(m, Kind(S, j))
    ensures ParseAt(S, m, c) == (e, At(S, c, j))
    decreases j - c.pos, 60 - m, 2
  {
    hide Source.ParsePrimary, Source.ParseCall, Source.ParseUnary, Source.ParseBinary, Source.ParseAssignment,
         Source.CallLoop, Source.BinaryLoop, ExprAt, At;
    AtEnds(S, c, j);
    if m == 0 {
      AssignmentComplete(S, e, c, j);
    } else if m <= 6 {
      BinaryComplete(S, m, e, c, j);
      BinaryLoopStep(S, m, e, At(S, c, j));
    } else if m == 7 {
      UnaryComplete(S, e, c, j);
    } else if m == 8 {
      CallComplete(S, e, c, j);
      CallLoopStep(S, e, At(S, c, j));
    } else {
      PrimaryComplete(S, e, c, j);
    }
  }

  lemma {:induction false} AssignmentComplete(S: Source, e: Expr, c: Cursor, j: nat)
    requires S.On(c) && ExprAt(S, c.pos, j, 0, e) && !Continues(0, Kind(S, j))
    ensures S.ParseAssignment(c) == (e, At(S, c, j))
    decreases j - c.pos, 60, 1
  {
    hide Source.ParseBinary, Source.ParseAssignment, ExprAt, At, Source.Advance, Source.Current;
    AssignmentStep(S, c);
    var k := AssignParts(S, c.pos, j, e);
    if AssignAt(S, c.pos, k, j, e) {
      AtNext(S, c, k);
      AtAt(S, c, k + 1, j);
      LevelComplete(S, 1, e.target, c, k);
      AssignmentComplete(S, e.source, At(S, c, k + 1), j);
    } else {
      AtEnds(S, c, j);
      LevelComplete(S, 1, e, c, j);
    }
  }

  /** Whatever follows, reading a binary level first rebuilds `e`. */
  lemma {:induction false} BinaryComplete(S: Source, m: nat, e: Expr, c: Cursor, j: nat)
    requires S.On(c) && 1 <= m <= 6 && ExprAt(S, c.pos, j, m, e) && !Continues(m + 1, Kind(S, j))
    ensures S.On(At(S, c, j)) && S.ParseBinary(m, c) == S.BinaryLoop(m, e, At(S, c, j))
    decreases j - c.pos, 60 - m, 1
  {
    hide Source.ParseBinary, Source.BinaryLoop, Source.ParseOperand, Source.Advance, Source.Current, ParseAt, ExprAt,
         At, TokenLevel, OpToken, OpLevel;
    OperandAt(S, m, c);
    AtEnds(S, c, j);
    var k := BinaryParts(S, c.pos, j, m, e);
    if BinaryAt(S, c.pos, k, j, m, e) {
      OpTokenLevel(e.op);
      AtNext(S, c, k);
      AtAt(S, c, k + 1, j);
      BinaryComplete(S, m, e.left, c, k);
      LevelComplete(S, m + 1, e.right, At(S, c, k + 1), j);
      OperandAt(S, m, At(S, c, k + 1));
      BinaryLoopStep(S, m, e.left, At(S, c, k));
    } else {
      LevelComplete(S, m + 1, e, c, j);
    }
  }

  lemma {:induction false} UnaryComplete(S: Source, e: Expr, c: Cursor, j: nat)
    requires S.On(c) && ExprAt(S, c.pos, j, 7, e) && !Continues(7, Kind(S, j))
    ensures S.ParseUnary(c) == (e, At(S, c, j))
    decreases j - c.pos, 53, 1
  {
    hide Source.ParseUnary, Source.ParseCall, Source.Advance, Source.Current, ExprAt, At, TokenLevel;
    UnaryStep(S, c);
    UnaryParts(S, c.pos, j, e);
    AtAt(S, c, c.pos, j);
    AtNext(S, c, c.pos);
    if UnaryAt(S, c.pos, j, e) {
      AtAt(S, c, c.pos + 1, j);
      LevelComplete(S, 7, e.operand, At(S, c, c.pos + 1), j);
    } else {
      ExprStart(S, c.pos, j, 8, e);
      LevelComplete(S, 8, e, c, j);
    }
  }

  /** Whatever follows, reading a call or access first rebuilds `e`. */
  lemma {:induction false} CallComplete(S: Source, e: Expr, c: Cursor, j: nat)
    requires S.On(c) && ExprAt(S, c.pos, j, 8, e)
    ensures S.On(At(S, c, j)) && S.ParseCall(c) == S.CallLoop(e, At(S, c, j))
    decreases j - c.pos, 52, 1
  {
    hide Source.ParsePrimary, Source.ParseCall, Source.CallLoop, Source.ParseExpression, Source.ParseElements,
         Source.Advance, Source.Current, ExprAt, At, TokenLevel;
    AtEnds(S, c, j);
    var k := CallParts(S, c.pos, j, e);
    if CallAt(S, c.pos, k, j, e) {
      AccessComplete(S, e, c, k, j);
    } else {
      CallStart(S, c);
      LevelComplete(S, 9, e, c, j);
    }
  }

  lemma {:induction false} AccessComplete(S: Source, e: Expr, c: Cursor, k: nat, j: nat)
    requires S.On(c) && CallAt(S, c.pos, k, j, e) && j <= |S.tokens|
    ensures S.On(At(S, c, j)) && S.ParseCall(c) == S.CallLoop(e, At(S, c, j))
    decreases j - c.pos, 52, 0
  {
    hide Source.ParsePrimary, Source.ParseCall, Source.CallLoop, Source.ParseExpression, Source.ParseElements,
         Source.Advance, Source.Current, Source.Consume, ExprAt, ListAt, At, TokenLevel, NameAt;
    var base := if e.Call? then e.callee else e.base;
    AtEnds(S, c, j);
    AtNext(S, c, k);
    CallComplete(S, base, c, k);
    if e.Call? {
      ArgumentsComplete(S, e, c, k, j);
    } else if e.Index? {
      IndexComplete(S, e, c, k, j);
    } else {
      FieldComplete(S, e, c, k);
    }
  }

  /** One round of the loop: a call. */
  lemma {:induction false} ArgumentsComplete(S: Source, e: Expr, c: Cursor, k: nat, j: nat)
    requires c.pos < k < j - 1 < |S.tokens| && e.Call? && Kind(S, k) == TLParen && ListAt(S, k + 1, j - 1, e.args)
    requires Kind(S, j - 1) == TRParen
    ensures S.On(At(S, c, k)) && S.On(At(S, c, j))
    ensures S.CallLoop(e.callee, At(S, c, k)) == S.CallLoop(e, At(S, c, j))
    decreases j - c.pos - 1, 100
  {
    hide Source.CallLoop, Source.ParseExpression, Source.ParseElements, Source.Advance, Source.Current, Source.Consume,
         ListAt, At, TokenLevel;
    AtEnds(S, c, j);
    AtNext(S, c, k);
    AtNext(S, c, j - 1);
    AtAt(S, c, k + 1, j - 1);
    CallLoopStep(S, e.callee, At(S, c, k));
    ElementsComplete(S, e.args, TRParen, At(S, c, k + 1), j - 1);
  }

  lemma {:induction false} IndexComplete(S: Source, e: Expr, c: Cursor, k: nat, j: nat)
    requires c.pos < k < j - 1 < |S.tokens| && e.Index? && Kind(S, k) == TLBracket &&
      ExprAt(S, k + 1, j - 1, 0, e.index)
    requires Kind(S, j - 1) == TRBracket
    ensures S.On(At(S, c, k)) && S.On(At(S, c, j))
    ensures S.CallLoop(e.base, At(S, c, k)) == S.CallLoop(e, At(S, c, j))
    decreases j - c.pos - 1, 100
  {
    hide Source.CallLoop, Source.ParseExpression, Source.ParseElements, Source.Advance, Source.Current, Source.Consume,
         ExprAt, At, TokenLevel;
    AtEnds(S, c, j);
    AtNext(S, c, k);
    AtNext(S, c, j - 1);
    AtAt(S, c, k + 1, j - 1);
    CallLoopStep(S, e.base, At(S, c, k));
    ClosingTokens(TRBracket);
    ExprComplete(S, e.index, At(S, c, k + 1), j - 1);
  }

  lemma FieldComplete(S: Source, e: Expr, c: Cursor, k: nat)
    requires c.pos < k && k + 2 <= |S.tokens| && e.Dot? && Kind(S, k) == TDot && NameAt(S, k + 1, e.field)
    ensures S.On(At(S, c, k)) && S.On(At(S, c, k + 2))
    ensures S.CallLoop(e.base, At(S, c, k)) == S.CallLoop(e, At(S, c, k + 2))
  {
    hide Source.CallLoop, Source.ParseExpression, Source.ParseElements, Source.Advance, Source.Current, Source.Consume,
         At, Continues;
    AtEnds(S, c, k + 2);
    AtNext(S, c, k);
    AtNext(S, c, k + 1);
    var c1 := S.Consume(S.Advance(At(S, c, k)), TIdent);
    assert c1 == At(S, c, k + 2) && c1.previous.text == e.field;
    CallLoopStep(S, e.base, At(S, c, k));
  }

  /** An expression is read whole if the token behind it does not prolong it. */
  lemma {:induction false} ExprComplete(S: Source, e: Expr, c: Cursor, j: nat)
    requires S.On(c) && ExprAt(S, c.pos, j, 0, e) && StopsAt(S, j)
    ensures S.ParseExpression(c) == (e, At(S, c, j)) && S.On(At(S, c, j)) && At(S, c, j).pos == j
    decreases j - c.pos, 70
  {
    hide Source.ParseExpression, Source.ParseElements, Source.ParseAssignment, ExprAt, At;
    ElementsStep(S, c, TRParen);
    AtEnds(S, c, j);
    LevelComplete(S, 0, e, c, j);
  }

  lemma {:induction false} ElementsComplete(S: Source, es: seq<Expr>, close: TokenKind, c: Cursor, j: nat)
    requires S.On(c) && ListAt(S, c.pos, j, es) && Kind(S, j) == close && close in {TRParen, TRBracket}
    ensures j < |S.tokens| && S.ParseElements(c, close) == (es, At(S, c, j))
    decreases j - c.pos, 90
  {
    hide Source.ParseElements, Source.ParseCommaList, Source.ParseExpression, ExprAt, ListAt, At;
    ElementsStep(S, c, close);
    if es == [] {
      AtAt(S, c, c.pos, c.pos);
      NoElements(S, c.pos, j);
    } else {
      ListStart(S, c.pos, j, es);
      CommaListComplete(S, es, close, c, j);
    }
  }

  lemma NoElements(S: Source, i: nat, j: nat)
    requires ListAt(S, i, j, [])
    ensures i == j
  {
  }

  lemma ListStart(S: Source, i: nat, j: nat, es: seq<Expr>)
    requires ListAt(S, i, j, es) && es != []
    ensures StartsExpr(Kind(S, i))
  {
    hide ExprAt, StartsExpr;
    if |es| == 1 {
      ExprStart(S, i, j, 0, es[0]);
    } else {
      var k: nat :| CommaAt(S, i, k, j, es);
      ExprStart(S, i, k, 0, es[0]);
    }
  }

  lemma ListParts(S: Source, i: nat, j: nat, es: seq<Expr>) returns (k: nat)
    requires ListAt(S, i, j, es) && es != []
    ensures i < k <= j && ExprAt(S, i, k, 0, es[0])
    ensures if |es| == 1 then k == j else k < j && Kind(S, k) == TComma && ListAt(S, k + 1, j, es[1..])
  {
    hide ExprAt;
    if |es| == 1 {
      k := j;
    } else {
      k :| CommaAt(S, i, k, j, es);
    }
  }

  lemma {:induction false} CommaListComplete(S: Source, es: seq<Expr>, close: TokenKind, c: Cursor, j: nat)
    requires S.On(c) && ListAt(S, c.pos, j, es) && es != [] && Kind(S, j) == close && close in {TRParen, TRBracket}
    ensures j < |S.tokens| && S.ParseCommaList(c) == (es, At(S, c, j))
    decreases j - c.pos, 80
  {
    hide Source.ParseCommaList, Source.ParseExpression, Source.Advance, Source.Current, ExprAt, ListAt, At, TokenLevel;
    S.CommaListFirst(c);
    ClosingTokens(close);
    ClosingTokens(TComma);
    var k := ListParts(S, c.pos, j, es);
    ExprComplete(S, es[0], c, k);
    AtNext(S, c, k);
    if |es| == 1 {
      assert es == [es[0]] + [];
    } else {
      AtAt(S, c, k + 1, j);
      CommaListComplete(S, es[1..], close, At(S, c, k + 1), j);
      assert es == [es[0]] + es[1..];
    }
  }

  lemma AtomComplete(S: Source, e: Expr, c: Cursor)
    requires c.pos < |S.tokens| && AtomAt(S, c.pos, e)
    ensures S.ParsePrimary(c) == (e, At(S, c, c.pos + 1))
  {
    hide Source.ParseElements, Source.ParseExpression, ParseInt;
  }

  lemma {:induction false} PrimaryComplete(S: Source, e: Expr, c: Cursor, j: nat)
    requires S.On(c) && ExprAt(S, c.pos, j, 9, e)
    ensures S.ParsePrimary(c) == (e, At(S, c, j))
    decreases j - c.pos, 51, 1
  {
    hide Source.ParsePrimary, Source.ParseExpression, Source.ParseElements, Source.Consume, Source.Advance,
         Source.Current, ExprAt, ListAt, At, AtomAt, TokenLevel;
    PrimaryParts(S, c.pos, j, e);
    S.PrimarySteps(c);
    AtAt(S, c, c.pos, j);
    AtNext(S, c, c.pos);
    if j == c.pos + 1 && AtomAt(S, c.pos, e) {
      AtomComplete(S, e, c);
    } else {
      AtNext(S, c, j - 1);
      var next := At(S, c, c.pos + 1);
      AtAt(S, c, c.pos + 1, j - 1);
      if Kind(S, c.pos) == TLParen {
        ClosingTokens(TRParen);
        ExprComplete(S, e, next, j - 1);
      } else {
        ElementsComplete(S, e.elements, TRBracket, next, j - 1);
      }
    }
  }
}
