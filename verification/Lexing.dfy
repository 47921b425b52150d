/** How text falls into tokens (src/lexer.c), as functions of the text and a position. */
module Lexing {
  import opened Wrappers
  import opened Decimal
  import opened Tokens

  /** The characters of C's `isalpha` and the underscore. */
  predicate IsWordStart(c: char) {
    'a' <= c <= 'z' || 'A' <= c <= 'Z' || c == '_'
  }

  predicate IsWordChar(c: char) {
    IsWordStart(c) || IsDigit(c)
  }

  predicate IsBlank(c: char) {
    c in {' ', '\r', '\t', '\n'}
  }

  /** A token that a word can be. */
  predicate WordToken(k: TokenKind) {
    match k
    case TEof | TError | TString | TInt | TFloat => false
    case TSlash | TMinus | TDot | TAssign | TBang | TLess | TGreater => false
    case _ => true
  }

  const KEYWORD_COUNT: nat := 27

  /** The keyword table. */
  function Spelling(i: nat): string {
    match i
    case 0 => "let"
    case 1 => "fn"
    case 2 => "return"
    case 3 => "if"
    case 4 => "else"
    case 5 => "for"
    case 6 => "while"
    case 7 => "in"
    case 8 => "class"
    case 9 => "self"
    case 10 => "true"
    case 11 => "false"
    case 12 => "nil"
    case 13 => "print"
    case 14 => "import"
    case 15 => "server"
    case 16 => "route"
    case 17 => "respond"
    case 18 => "on"
    case 19 => "security"
    case 20 => "async"
    case 21 => "await"
    case 22 => "break"
    case 23 => "continue"
    case 24 => "not"
    case 25 => "and"
    case _ => "or"
  }

  function Meaning(i: nat): (k: TokenKind)
    ensures WordToken(k)
  {
    match i
    case 0 => TLet
    case 1 => TFn
    case 2 => TReturn
    case 3 => TIf
    case 4 => TElse
    case 5 => TFor
    case 6 => TWhile
    case 7 => TIn
    case 8 => TClass
    case 9 => TSelf
    case 10 => TTrue
    case 11 => TFalse
    case 12 => TNil
    case 13 => TPrint
    case 14 => TImport
    case 15 => TServer
    case 16 => TRoute
    case 17 => TRespond
    case 18 => TOn
    case 19 => TSecurity
    case 20 => TAsync
    case 21 => TAwait
    case 22 => TBreak
    case 23 => TContinue
    case 24 => TNot
    case 25 => TAnd
    case _ => TOr
  }

  /** The kind of a word: the first keyword with its spelling, from entry `i` on. */
  function WordKind(word: string, i: nat): (k: TokenKind)
    requires i <= KEYWORD_COUNT
    ensures WordToken(k)
    decreases KEYWORD_COUNT - i
  {
    if i == KEYWORD_COUNT then TIdent
    else if Spelling(i) == word then Meaning(i)
    else WordKind(word, i + 1)
  }

  /** sky_lexer_init skips a UTF-8 byte order mark. */
  function WithoutMark(src: string): string {
    if |src| >= 3 && src[0] == 0xEF as char && src[1] == 0xBB as char && src[2] == 0xBF as char then src[3..] else src
  }

  datatype Text = Text(src: string) {

    predicate At(p: nat, c: char) {
      p < |src| && src[p] == c
    }

    /** Behind blanks and comments. */
    function Skip(p: nat): (q: nat)
      requires p <= |src|
      ensures p <= q <= |src|
      decreases |src| - p
    {
      if p < |src| && IsBlank(src[p]) then Skip(p + 1)
      else if At(p, '/') && At(p + 1, '/') then Skip(LineEnd(p + 2))
      else p
    }

    function LineEnd(p: nat): (q: nat)
      requires p <= |src|
      ensures p <= q <= |src| && (q < |src| ==> src[q] == '\n')
      decreases |src| - p
    {
      if p == |src| || src[p] == '\n' then p else LineEnd(p + 1)
    }

    function WordEnd(p: nat): (q: nat)
      requires p <= |src|
      ensures p <= q <= |src| && (q < |src| ==> !IsWordChar(src[q]))
      ensures forall i :: p <= i < q ==> IsWordChar(src[i])
      decreases |src| - p
    {
      if p < |src| && IsWordChar(src[p]) then WordEnd(p + 1) else p
    }

    function DigitsEnd(p: nat): (q: nat)
      requires p <= |src|
      ensures p <= q <= |src| && (q < |src| ==> !IsDigit(src[q]))
      ensures forall i :: p <= i < q ==> IsDigit(src[i])
      decreases |src| - p
    {
      if p < |src| && IsDigit(src[p]) then DigitsEnd(p + 1) else p
    }

    /** The closing quote of a string, or the end of the text. A backslash takes the next
        character with it: as the last character, it takes the terminator of the text. */
    function StringEnd(p: nat): (r: Option<nat>)
      requires p <= |src|
      ensures r.Some? ==> p <= r.value <= |src| && (r.value < |src| ==> src[r.value] == '"')
      decreases |src| - p
    {
      if p == |src| || src[p] == '"' then Some(p)
      else if src[p] != '\\' then StringEnd(p + 1)
      else if p + 1 == |src| then None
      else StringEnd(p + 2)
    }

    /** The token at `p`, a position with a character; none if a string runs over the end. */
    function Scan(p: nat): (r: Option<(Token, nat)>)
      requires p < |src|
      ensures r.Some? ==> p < r.value.1 <= |src| && r.value.0.kind != TEof
    {
      var c := src[p];
      if IsDigit(c) then
        var q := DigitsEnd(p);
        if At(q, '.') && q + 1 < |src| && IsDigit(src[q + 1]) then
          Some((Token(TFloat, src[p..DigitsEnd(q + 1)]), DigitsEnd(q + 1)))
        else Some((Token(TInt, src[p..q]), q))
      else if IsWordStart(c) then Some((Token(KindOf(src[p..WordEnd(p)]), src[p..WordEnd(p)]), WordEnd(p)))
      else if c == '"' then
        match StringEnd(p + 1)
        case None => None
        case Some(q) =>
          if q == |src| then Some((Token(TError, "Unterminated string"), q))
          else Some((Token(TString, src[p + 1..q]), q + 1))
      else Some(Symbol(p))
    }

    /** The cases of `Scan`. */
    lemma ScanNumber(p: nat)
      requires p < |src| && IsDigit(src[p])
      ensures
        var q := DigitsEnd(p);
        Scan(p) ==
          if At(q, '.') && q + 1 < |src| && IsDigit(src[q + 1]) then
            Some((Token(TFloat, src[p..DigitsEnd(q + 1)]), DigitsEnd(q + 1)))
          else Some((Token(TInt, src[p..q]), q))
    {
      hide DigitsEnd, WordEnd, StringEnd, Symbol;
    }

    lemma ScanCases(p: nat)
      requires p < |src|
      ensures IsDigit(src[p]) ==>
        var q := DigitsEnd(p);
        Scan(p) ==
          if At(q, '.') && q + 1 < |src| && IsDigit(src[q + 1]) then
            Some((Token(TFloat, src[p..DigitsEnd(q + 1)]), DigitsEnd(q + 1)))
          else Some((Token(TInt, src[p..q]), q))
      ensures IsWordStart(src[p]) ==>
        Scan(p) == Some((Token(KindOf(src[p..WordEnd(p)]), src[p..WordEnd(p)]), WordEnd(p)))
      ensures src[p] == '"' ==>
        Scan(p) ==
          match StringEnd(p + 1)
          case None => None
          case Some(q) =>
            if q == |src| then Some((Token(TError, "Unterminated string"), q))
            else Some((Token(TString, src[p + 1..q]), q + 1))
      ensures !IsDigit(src[p]) && !IsWordStart(src[p]) && src[p] != '"' ==> Scan(p) == Some(Symbol(p))
    {
      hide KindOf, Symbol, DigitsEnd, WordEnd, StringEnd;
    }

    /** One- and two-character tokens. */
    function Symbol(p: nat): (r: (Token, nat))
      requires p < |src|
      ensures p < r.1 <= |src| && r.0.kind != TEof
    {
      match src[p]
      case '(' => One(p, TLParen)
      case ')' => One(p, TRParen)
      case '{' => One(p, TLBrace)
      case '}' => One(p, TRBrace)
      case '[' => One(p, TLBracket)
      case ']' => One(p, TRBracket)
      case ',' => One(p, TComma)
      case ':' => One(p, TColon)
      case ';' => One(p, TSemicolon)
      case '%' => One(p, TPercent)
      case '+' => One(p, TPlus)
      case '-' => Two(p, '>', TArrow, TMinus)
      case '*' => One(p, TStar)
      case '/' => One(p, TSlash)
      case '.' => Two(p, '.', TDotDot, TDot)
      case '=' => Two(p, '=', TEqualEqual, TAssign)
      case '!' => Two(p, '=', TNotEqual, TBang)
      case '<' => Two(p, '=', TLessEqual, TLess)
      case '>' => Two(p, '=', TGreaterEqual, TGreater)
      case '&' =>
        if At(p + 1, '&') then (Token(TAnd, src[p..p + 2]), p + 2)
        else (Token(TError, "Expected '&&'"), p + 1)
      case '|' => if At(p + 1, '|') then (Token(TOr, src[p..p + 2]), p + 2) else (Token(TError, "Expected '||'"), p + 1)
      case _ => (Token(TError, "Unexpected character"), p + 1)
    }

    function One(p: nat, k: TokenKind): (Token, nat)
      requires p < |src|
    {
      (Token(k, src[p..p + 1]), p + 1)
    }

    function Two(p: nat, c: char, both: TokenKind, single: TokenKind): (Token, nat)
      requires p < |src|
    {
      if At(p + 1, c) then (Token(both, src[p..p + 2]), p + 2) else One(p, single)
    }

    /** sky_lexer_next from position `p`: the token and the next position. */
    function Next(p: nat): (r: Option<(Token, nat)>)
      requires p <= |src|
      ensures r.Some? ==> p <= r.value.1 <= |src|
      ensures r.Some? ==> (r.value.0 == END && r.value.1 == |src|) || (r.value.0.kind != TEof && p < r.value.1)
    {
      var q := Skip(p);
      if q == |src| then Some((END, q)) else Scan(q)
    }

    /** All tokens from `p` to the end; none if a string runs over the end. */
    function All(p: nat): (r: Option<seq<Token>>)
      requires p <= |src|
      ensures r.Some? ==> forall i :: 0 <= i < |r.value| ==> r.value[i].kind != TEof
      decreases |src| - p
    {
      var r := Next(p);
      if r.None? then None
      else if r.value.0.kind == TEof then Some([])
      else
        var rest := All(r.value.1);
        if rest.None? then None else Some([r.value.0] + rest.value)
    }

    lemma AllStep(p: nat)
      requires p <= |src|
      ensures All(p) ==
        var r := Next(p);
        if r.None? then None
        else if r.value.0.kind == TEof then Some([])
        else
          var rest := All(r.value.1);
          if rest.None? then None else Some([r.value.0] + rest.value)
    {
      hide Next;
    }
  }

  function KindOf(word: string): (k: TokenKind)
    ensures WordToken(k)
  {
    WordKind(word, 0)
  }

  // ----- the keywords are told apart -----

  /** Length and first two characters. */
  function KeyOf(word: string): nat
    requires |word| >= 2
  {
    |word| * 0x10000 + (word[0] as int) * 0x100 + (word[1] as int)
  }

  function Key(i: nat): nat {
    match i
    case 0 => 224357
    case 1 => 157294
    case 2 => 422501
    case 3 => 158054
    case 4 => 288108
    case 5 => 222831
    case 6 => 358248
    case 7 => 158062
    case 8 => 353132
    case 9 => 291685
    case 10 => 291954
    case 11 => 353889
    case 12 => 224873
    case 13 => 356466
    case 14 => 420205
    case 15 => 422757
    case 16 => 356975
    case 17 => 488037
    case 18 => 159598
    case 19 => 553829
    case 20 => 352627
    case 21 => 352631
    case 22 => 352882
    case 23 => 549743
    case 24 => 224879
    case 25 => 221550
    case _ => 159602
  }

  function Back(key: nat): nat {
    match key
    case 224357 => 0
    case 157294 => 1
    case 422501 => 2
    case 158054 => 3
    case 288108 => 4
    case 222831 => 5
    case 358248 => 6
    case 158062 => 7
    case 353132 => 8
    case 291685 => 9
    case 291954 => 10
    case 353889 => 11
    case 224873 => 12
    case 356466 => 13
    case 420205 => 14
    case 422757 => 15
    case 356975 => 16
    case 488037 => 17
    case 159598 => 18
    case 553829 => 19
    case 352627 => 20
    case 352631 => 21
    case 352882 => 22
    case 549743 => 23
    case 224879 => 24
    case 221550 => 25
    case _ => 26
  }

  lemma KeyBack(i: nat)
    requires i < KEYWORD_COUNT
    ensures Back(Key(i)) == i
  {
  }

  lemma SpellingKey(i: nat)
    requires i < KEYWORD_COUNT
    ensures |Spelling(i)| >= 2 && KeyOf(Spelling(i)) == Key(i)
  {
  }

  lemma SpellingsDiffer(i: nat, j: nat)
    requires i < KEYWORD_COUNT && j < KEYWORD_COUNT && i != j
    ensures Spelling(i) != Spelling(j)
  {
    hide Spelling, Key, Back, KeyOf;
    SpellingKey(i);
    SpellingKey(j);
    KeyBack(i);
    KeyBack(j);
  }

  lemma {:induction false} KeywordFound(i: nat, from: nat)
    requires from <= i < KEYWORD_COUNT
    ensures WordKind(Spelling(i), from) == Meaning(i)
    decreases i - from
  {
    hide Spelling, Meaning;
    if from < i {
      SpellingsDiffer(i, from);
      KeywordFound(i, from + 1);
    }
  }

  /** Each keyword is recognized as what it means. */
  lemma KeywordKind(i: nat)
    requires i < KEYWORD_COUNT
    ensures KindOf(Spelling(i)) == Meaning(i)
  {
    KeywordFound(i, 0);
  }

  /** A word that no keyword spells is an identifier. */
  lemma {:induction false} NoKeyword(word: string, from: nat)
    requires from <= KEYWORD_COUNT && forall i :: from <= i < KEYWORD_COUNT ==> Spelling(i) != word
    ensures WordKind(word, from) == TIdent
    decreases KEYWORD_COUNT - from
  {
    hide Spelling, Meaning;
    if from < KEYWORD_COUNT {
      NoKeyword(word, from + 1);
    }
  }
}
