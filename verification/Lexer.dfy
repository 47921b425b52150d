/** The lexer (src/lexer.c): a cursor that moves over the text character by character.
    Each method finds what Lexing says. */
module Lexer {
  import opened Wrappers
  import opened Decimal
  import opened Tokens
  import opened Lexing

  class SkyLexer {
    const text: Text
    var start: nat
    var current: nat
    var hadError: bool

    ghost predicate Valid()
      reads this
    {
      start <= current <= |text.src|
    }

    /** sky_lexer_init */
    constructor (src: string)
      ensures Valid() && text.src == WithoutMark(src) && current == 0 && !hadError
    {
      text := Text(WithoutMark(src));
      start, current, hadError := 0, 0, false;
    }

    predicate AtEnd()
      reads this
      requires Valid()
    {
      current == |text.src|
    }

    /** `peek() == c`, false at the end. */
    predicate Peek(c: char)
      reads this
    {
      text.At(current, c)
    }

    method Advance()
      requires Valid() && !AtEnd()
      modifies this`current
      ensures Valid() && current == old(current) + 1
    {
      current := current + 1;
    }

    method MatchChar(c: char) returns (matched: bool)
      requires Valid()
      modifies this`current
      ensures Valid() && matched == text.At(old(current), c) && current == old(current) + if matched then 1 else 0
    {
      matched := Peek(c);
      if matched {
        current := current + 1;
      }
    }

    /** skip_whitespace */
    method SkipWhitespace()
      requires Valid()
      modifies this`current
      ensures Valid() && current == text.Skip(old(current))
    {
      var more := true;
      while more
        invariant Valid() && current >= old(current)
        invariant text.Skip(old(current)) == if more then text.Skip(current) else current
        decreases more, |text.src| - current
      {
        if !AtEnd() && IsBlank(text.src[current]) {
          Advance();
        } else if Peek('/') && text.At(current + 1, '/') {
          SkipLine();
        } else {
          more := false;
        }
      }
    }

    method SkipLine()
      requires Valid() && Peek('/') && text.At(current + 1, '/')
      modifies this`current
      ensures Valid() && current == text.LineEnd(old(current) + 2) && current > old(current)
    {
      assert text.LineEnd(current) == text.LineEnd(current + 2) by {
        assert text.LineEnd(current + 1) == text.LineEnd(current + 2);
      }
      while !AtEnd() && text.src[current] != '\n'
        invariant Valid() && current >= old(current)
        invariant text.LineEnd(current) == text.LineEnd(old(current) + 2)
        decreases |text.src| - current
      {
        Advance();
      }
    }

    method MakeToken(k: TokenKind) returns (t: Token)
      requires Valid()
      ensures t == Token(k, text.src[start..current])
    {
      t := Token(k, text.src[start..current]);
    }

    method ErrorToken(message: string) returns (t: Token)
      modifies this`hadError
      ensures hadError && t == Token(TError, message)
    {
      hadError := true;
      t := Token(TError, message);
    }

    method SkipDigits()
      requires Valid()
      modifies this`current
      ensures Valid() && current == text.DigitsEnd(old(current))
    {
      while !AtEnd() && IsDigit(text.src[current])
        invariant Valid() && text.DigitsEnd(current) == text.DigitsEnd(old(current))
        decreases |text.src| - current
      {
        Advance();
      }
    }

    method NumberToken() returns (t: Token)
      requires Valid() && start + 1 == current && IsDigit(text.src[start])
      modifies this`current
      ensures Valid() && text.Scan(start) == Some((t, current)) && t.kind != TError
    {
      hide Text.Scan, Text.DigitsEnd, Text.WordEnd, Text.StringEnd, Text.Symbol, IsDigit, IsWordStart, KindOf;
      text.ScanNumber(start);
      var isFloat := false;
      SkipDigits();
      assert current == text.DigitsEnd(start);
      if Peek('.') && current + 1 < |text.src| && IsDigit(text.src[current + 1]) {
        isFloat := true;
        Advance();
        SkipDigits();
      }
      t := MakeToken(if isFloat then TFloat else TInt);
    }

    /** The search of check_keyword. */
    method CheckKeyword() returns (k: TokenKind)
      requires Valid()
      ensures k == KindOf(text.src[start..current])
    {
      hide Spelling, Meaning;
      for i := 0 to KEYWORD_COUNT
        invariant WordKind(text.src[start..current], i) == KindOf(text.src[start..current])
      {
        var name := Spelling(i);
        if |name| == current - start && name == text.src[start..current] {
          return Meaning(i);
        }
      }
      return TIdent;
    }

    method IdentifierToken() returns (t: Token)
      requires Valid() && start + 1 == current && IsWordStart(text.src[start])
      modifies this`current
      ensures Valid() && text.Scan(start) == Some((t, current)) && t.kind != TError
    {
      hide KindOf;
      while !AtEnd() && IsWordChar(text.src[current])
        invariant Valid() && text.WordEnd(current) == text.WordEnd(start)
        decreases |text.src| - current
      {
        Advance();
      }
      var k := CheckKeyword();
      t := MakeToken(k);
    }

    /** To the closing quote, or to the end. */
    method SkipString()
      requires Valid() && text.StringEnd(current).Some?
      modifies this`current
      ensures Valid() && Some(current) == text.StringEnd(old(current)) && current >= old(current)
    {
      while !AtEnd() && text.src[current] != '"'
        invariant Valid() && current >= old(current) && text.StringEnd(current) == text.StringEnd(old(current))
        decreases |text.src| - current
      {
        if text.src[current] == '\\' {
          Advance();
        }
        Advance();
      }
    }

    method StringToken() returns (t: Token)
      requires Valid() && start + 1 == current && text.src[start] == '"' && text.StringEnd(current).Some?
      modifies this`current, this`hadError
      ensures Valid() && text.Scan(start) == Some((t, current))
      ensures hadError == (old(hadError) || t.kind == TError)
    {
      hide Text.Scan, Text.StringEnd;
      text.ScanCases(start);
      SkipString();
      if AtEnd() {
        t := ErrorToken("Unterminated string");
        return;
      }
      Advance();
      t := Token(TString, text.src[start + 1..current - 1]);
    }

    /** sky_lexer_next. A string that is cut off right behind a backslash is excluded: the
        source reads over the end of the text there. */
    method Next() returns (t: Token)
      requires Valid() && text.Next(current).Some?
      modifies this
      ensures Valid() && text.Next(old(current)) == Some((t, current))
      ensures hadError == (old(hadError) || t.kind == TError)
    {
      hide KindOf, Text.Scan, Text.Skip, Text.Symbol;
      SkipWhitespace();
      start := current;
      if AtEnd() {
        t := Token(TEof, "");
        return;
      }
      var c := text.src[current];
      Advance();
      if IsDigit(c) {
        t := NumberToken();
      } else if IsWordStart(c) {
        t := IdentifierToken();
      } else if c == '"' {
        text.ScanCases(start);
        t := StringToken();
      } else {
        t := SymbolToken(c);
        text.ScanCases(start);
      }
    }

    /** The `switch` on the character. */
    method SymbolToken(c: char) returns (t: Token)
      requires Valid() && start + 1 == current && text.src[start] == c
      modifies this`current, this`hadError
      ensures Valid() && text.Symbol(start) == (t, current)
      ensures hadError == (old(hadError) || t.kind == TError)
    {
      hide Text.Symbol, Single, Pair, Text.One, Text.Two;
      SymbolCases(start);
      var k := Single(c);
      if k != TError {
        SymbolTexts(start, k, k, ' ');
        t := MakeToken(k);
        return;
      }
      if c == '&' || c == '|' {
        var twice := MatchChar(c);
        if twice {
          t := MakeToken(if c == '&' then TAnd else TOr);
        } else {
          t := ErrorToken(if c == '&' then "Expected '&&'" else "Expected '||'");
        }
        return;
      }
      if c in {'-', '.', '=', '!', '<', '>'} {
        var second := Second(c);
        SymbolTexts(start, Pair(c, true), Pair(c, false), second);
        var both := MatchChar(second);
        t := MakeToken(Pair(c, both));
        return;
      }
      t := ErrorToken("Unexpected character");
    }

    lemma SymbolCases(p: nat)
      requires p < |text.src|
      ensures Single(text.src[p]) != TError ==> text.Symbol(p) == text.One(p, Single(text.src[p]))
      ensures text.src[p] in {'-', '.', '=', '!', '<', '>'} ==>
        var c := text.src[p];
        text.Symbol(p) == text.Two(p, Second(c), Pair(c, true), Pair(c, false)) && Pair(c, true) != TError &&
          Pair(c, false) != TError
      ensures text.src[p] == '&' ==>
        text.Symbol(p) ==
          if text.At(p + 1, '&') then (Token(TAnd, text.src[p..p + 2]), p + 2)
          else (Token(TError, "Expected '&&'"), p + 1)
      ensures text.src[p] == '|' ==>
        text.Symbol(p) ==
          if text.At(p + 1, '|') then (Token(TOr, text.src[p..p + 2]), p + 2)
          else (Token(TError, "Expected '||'"), p + 1)
      ensures Single(text.src[p]) == TError && text.src[p] !in {'-', '.', '=', '!', '<', '>', '&', '|'} ==>
        text.Symbol(p) == (Token(TError, "Unexpected character"), p + 1)
    {
      hide Text.One, Text.Two;
    }

    lemma SymbolTexts(p: nat, k: TokenKind, single: TokenKind, c: char)
      requires p < |text.src|
      ensures text.One(p, k) == (Token(k, text.src[p..p + 1]), p + 1)
      ensures text.Two(p, c, k, single) ==
        if text.At(p + 1, c) then (Token(k, text.src[p..p + 2]), p + 2) else (Token(single, text.src[p..p + 1]), p + 1)
    {
    }

    static function Second(c: char): char {
      if c == '-' then '>' else if c == '.' then '.' else '='
    }

    /** The characters that are tokens by themselves. */
    static function Single(c: char): TokenKind {
      match c
      case '(' => TLParen
      case ')' => TRParen
      case '{' => TLBrace
      case '}' => TRBrace
      case '[' => TLBracket
      case ']' => TRBracket
      case ',' => TComma
      case ':' => TColon
      case ';' => TSemicolon
      case '%' => TPercent
      case '+' => TPlus
      case '*' => TStar
      case '/' => TSlash
      case _ => TError
    }

    /** The tokens of two characters and of their first alone. */
    static function Pair(c: char, both: bool): TokenKind {
      match c
      case '-' => if both then TArrow else TMinus
      case '.' => if both then TDotDot else TDot
      case '=' => if both then TEqualEqual else TAssign
      case '!' => if both then TNotEqual else TBang
      case '<' => if both then TLessEqual else TLess
      case _ => if both then TGreaterEqual else TGreater
    }

    /** All tokens of the text, as the parser draws them. */
    method Drain() returns (tokens: seq<Token>)
      requires Valid() && text.All(current).Some?
      modifies this
      ensures Valid() && Some(tokens) == text.All(old(current))
    {
      hide Text.Next, Text.All;
      ghost var all := text.All(current);
      tokens := [];
      assert [] + text.All(current).value == text.All(current).value;
      while true
        invariant Valid() && text.All(current).Some?
        invariant all == Some(tokens + text.All(current).value)
        decreases |text.src| - current
      {
        text.AllStep(current);
        ghost var rest := text.All(current).value;
        var t := Next();
        if t.kind == TEof {
          assert tokens + [] == tokens;
          return;
        }
        assert tokens + rest == tokens + [t] + rest[1..];
        tokens := tokens + [t];
      }
    }
  }
}
