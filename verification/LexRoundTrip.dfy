/** What the lexer keeps of a text, and reading back tokens that were written out. */
module LexRoundTrip {
  import opened Wrappers
  import opened Decimal
  import opened Tokens
  import opened Lexing

  // ----- tiling -----

  /** The four characters that mean nothing between tokens. */
  predicate Space(c: char) {
    c == ' ' || c == '\t' || c == '\r' || c == '\n'
  }

  /** The first `k` characters are a comment. */
  predicate CommentText(s: string, k: nat) {
    2 <= k <= |s| && s[..2] == "//" && '\n' !in s[..k] && (k < |s| ==> s[k] == '\n')
  }

  /** Blanks and comments. */
  ghost predicate Blank(s: string)
    decreases |s|
  {
    || s == []
    || (Space(s[0]) && Blank(s[1..]))
    || exists k: nat :: CommentText(s, k) && Blank(s[k..])
  }

  /** `s` is the text of token `t`. */
  predicate Spells(s: string, t: Token) {
    match t.kind
    case TError => s != []
    case TString => s == "\"" + t.text + "\""
    case _ => s == t.text
  }

  /** From `p` on, the text is a gap and a token by turns, and a gap at the end. */
  ghost predicate Tiled(T: Text, p: nat, ts: seq<Token>, spans: seq<(nat, nat)>)
    decreases |ts|
  {
    && |ts| == |spans| && p <= |T.src|
    && if ts == [] then Blank(T.src[p..])
       else
         var (a, b) := spans[0];
         && p <= a < b <= |T.src| && Blank(T.src[p..a]) && Spells(T.src[a..b], ts[0])
         && Tiled(T, b, ts[1..], spans[1..])
  }

  lemma {:induction false} LineEndFree(T: Text, p: nat)
    requires p <= |T.src|
    ensures '\n' !in T.src[p..T.LineEnd(p)]
    decreases |T.src| - p
  {
    if p < |T.src| && T.src[p] != '\n' {
      LineEndFree(T, p + 1);
      assert T.src[p..T.LineEnd(p)] == [T.src[p]] + T.src[p + 1..T.LineEnd(p)];
    }
  }

  lemma BlankBlank(c: char, s: string)
    requires Space(c) && Blank(s)
    ensures Blank([c] + s)
  {
    assert ([c] + s)[1..] == s;
  }

  lemma BlankComment(line: string, s: string)
    requires |line| >= 2 && line[..2] == "//" && '\n' !in line && (s == [] || s[0] == '\n') && Blank(s)
    ensures Blank(line + s)
  {
    var t := line + s;
    assert t[..|line|] == line && t[|line|..] == s && t[..2] == line[..2];
    assert CommentText(t, |line|);
  }

  /** What is skipped is blank. */
  lemma {:induction false} SkipBlank(T: Text, p: nat)
    requires p <= |T.src|
    ensures Blank(T.src[p..T.Skip(p)])
    decreases |T.src| - p
  {
    hide Blank, Text.LineEnd;
    var q := T.Skip(p);
    if p < |T.src| && IsBlank(T.src[p]) {
      SkipBlank(T, p + 1);
      BlankBlank(T.src[p], T.src[p + 1..q]);
      assert T.src[p..q] == [T.src[p]] + T.src[p + 1..q];
    } else if T.At(p, '/') && T.At(p + 1, '/') {
      SkipComment(T, p);
      SkipBlank(T, T.LineEnd(p + 2));
      BlankComment(T.src[p..T.LineEnd(p + 2)], T.src[T.LineEnd(p + 2)..q]);
      assert T.src[p..q] == T.src[p..T.LineEnd(p + 2)] + T.src[T.LineEnd(p + 2)..q];
    } else {
      EmptyBlank();
      assert T.src[p..q] == [];
    }
  }

  /** And all of it: where the skipping stops there is neither a blank nor a comment. */
  lemma {:induction false} SkipStops(T: Text, p: nat)
    requires p <= |T.src|
    ensures
      var q := T.Skip(p);
      q < |T.src| ==>
        && T.src[q] != ' ' && T.src[q] != '\t' && T.src[q] != '\r' && T.src[q] != '\n'
        && !(T.src[q] == '/' && q + 1 < |T.src| && T.src[q + 1] == '/')
    decreases |T.src| - p
  {
    if p < |T.src| && IsBlank(T.src[p]) {
      SkipStops(T, p + 1);
    } else if T.At(p, '/') && T.At(p + 1, '/') {
      SkipStops(T, T.LineEnd(p + 2));
    }
  }

  lemma EmptyBlank()
    ensures Blank([])
  {
  }

  /** From `//` to the end of the line. */
  lemma SkipComment(T: Text, p: nat)
    requires T.At(p, '/') && T.At(p + 1, '/')
    ensures
      var e := T.LineEnd(p + 2);
      && p + 2 <= e && T.src[p..e][..2] == "//" && '\n' !in T.src[p..e]
      && (e < |T.src| ==> T.src[e] == '\n')
  {
    var e := T.LineEnd(p + 2);
    LineEndFree(T, p + 2);
    assert T.src[p..e] == ['/', '/'] + T.src[p + 2..e];
  }

  lemma ScanSpells(T: Text, p: nat)
    requires p < |T.src| && T.Scan(p).Some?
    ensures Spells(T.src[p..T.Scan(p).value.1], T.Scan(p).value.0)
  {
    hide KindOf, Text.Scan, Text.Symbol, Text.DigitsEnd, Text.WordEnd, Text.StringEnd;
    T.ScanCases(p);
    var c := T.src[p];
    if c == '"' {
      var q := T.StringEnd(p + 1).value;
      if q < |T.src| {
        assert T.src[p..q + 1] == "\"" + T.src[p + 1..q] + "\"";
      }
    } else if !IsDigit(c) && !IsWordStart(c) {
      SymbolSpells(T, p);
    }
  }

  lemma SymbolSpells(T: Text, p: nat)
    requires p < |T.src|
    ensures Spells(T.src[p..T.Symbol(p).1], T.Symbol(p).0)
  {
    hide Spells;
    var (t, q) := T.Symbol(p);
    PlainSpells(T.src[p..q], t);
  }

  lemma PlainSpells(s: string, t: Token)
    requires t.kind != TString && s != [] && (t.kind != TError ==> s == t.text)
    ensures Spells(s, t)
  {
  }

  /** Tokens, blanks and comments make up the whole text; no token is empty. */
  lemma {:induction false} TokensTile(T: Text, p: nat) returns (spans: seq<(nat, nat)>)
    requires p <= |T.src| && T.All(p).Some?
    ensures Tiled(T, p, T.All(p).value, spans)
    decreases |T.src| - p
  {
    hide Text.Scan, Text.Skip, Spells, Blank;
    var a := T.Skip(p);
    SkipBlank(T, p);
    if a == |T.src| {
      assert T.src[p..a] == T.src[p..];
      spans := [];
    } else {
      var b := T.Scan(a).value.1;
      ScanSpells(T, a);
      var rest := TokensTile(T, b);
      spans := [(a, b)] + rest;
      assert T.All(p).value[1..] == T.All(b).value;
    }
  }

  // ----- round trip -----

  predicate Letter(c: char) {
    'a' <= c <= 'z' || 'A' <= c <= 'Z' || c == '_'
  }

  predicate Digit(c: char) {
    '0' <= c <= '9'
  }

  /** A letter or underscore, then letters, underscores and digits. */
  predicate WordShape(s: string) {
    s != [] && Letter(s[0]) && forall i :: 0 <= i < |s| ==> Letter(s[i]) || Digit(s[i])
  }

  predicate Digits(s: string) {
    s != [] && forall i :: 0 <= i < |s| ==> Digit(s[i])
  }

  /** Digits, a point, digits. */
  predicate FloatShape(s: string) {
    exists k :: 0 < k < |s| - 1 && Digits(s[..k]) && s[k] == '.' && Digits(s[k + 1..])
  }

  /** The inside of a string literal: every quote has a backslash before it that is not
      itself taken by one. */
  predicate BodyShape(s: string)
    decreases |s|
  {
    || s == []
    || (s[0] == '\\' && |s| > 1 && BodyShape(s[2..]))
    || (s[0] != '\\' && s[0] != '"' && BodyShape(s[1..]))
  }

  /** The text of an operator or delimiter. */
  function SymbolText(k: TokenKind): Option<string> {
    match k
    case TPlus => Some("+")
    case TMinus => Some("-")
    case TStar => Some("*")
    case TSlash => Some("/")
    case TPercent => Some("%")
    case TAssign => Some("=")
    case TEqualEqual => Some("==")
    case TNotEqual => Some("!=")
    case TLess => Some("<")
    case TLessEqual => Some("<=")
    case TGreater => Some(">")
    case TGreaterEqual => Some(">=")
    case TAnd => Some("&&")
    case TOr => Some("||")
    case TDot => Some(".")
    case TDotDot => Some("..")
    case TComma => Some(",")
    case TColon => Some(":")
    case TSemicolon => Some(";")
    case TArrow => Some("->")
    case TBang => Some("!")
    case TLParen => Some("(")
    case TRParen => Some(")")
    case TLBrace => Some("{")
    case TRBrace => Some("}")
    case TLBracket => Some("[")
    case TRBracket => Some("]")
    case _ => None
  }

  /** The token can stand in a text. */
  predicate Writable(t: Token) {
    match t.kind
    case TInt => Digits(t.text)
    case TFloat => FloatShape(t.text)
    case TString => BodyShape(t.text)
    case TError => false
    case TEof => false
    case k => SymbolText(k) == Some(t.text) || (WordShape(t.text) && KindOf(t.text) == k)
  }

  function SpellingOf(t: Token): string {
    if t.kind == TString then "\"" + t.text + "\"" else t.text
  }

  // ----- texts -----

  /** What may stand between tokens: spaces, tabs, carriage returns, newlines and comments,
      which go to the end of their line; only the last one may go to the end of the text. */
  ghost predicate Gap(s: string, last: bool)
    decreases |s|
  {
    || s == []
    || (Space(s[0]) && Gap(s[1..], last))
    || exists k: nat :: CommentTo(s, k, last) && Gap(s[k..], last)
  }

  ghost predicate CommentTo(s: string, k: nat, last: bool) {
    && 2 <= k <= |s| && s[0] == '/' && s[1] == '/' && (forall i :: 0 <= i < k ==> s[i] != '\n')
    && if k < |s| then s[k] == '\n' else last
  }

  /** The text with these gaps in front of the tokens and at the end. */
  function TextOf(ts: seq<Token>, gaps: seq<string>): string
    requires |gaps| == |ts| + 1
  {
    if ts == [] then gaps[0] else gaps[0] + (SpellingOf(ts[0]) + TextOf(ts[1..], gaps[1..]))
  }

  /** The token would not end in front of `rest`. */
  predicate Prolongs(t: Token, rest: string) {
    rest != [] &&
    match t.kind
    case TString => false
    case TInt => Digit(rest[0]) || (rest[0] == '.' && |rest| > 1 && Digit(rest[1]))
    case TFloat => Digit(rest[0])
    case TMinus => rest[0] == '>'
    case TDot => rest[0] == '.'
    case TAssign => rest[0] == '='
    case TBang => rest[0] == '='
    case TLess => rest[0] == '='
    case TGreater => rest[0] == '='
    case TSlash => rest[0] == '/'
    case _ => t.text != [] && Letter(t.text[0]) && (Letter(rest[0]) || Digit(rest[0]))
  }

  /** Gaps as they may be; where two tokens touch, the second does not prolong the first. */
  ghost predicate Laid(ts: seq<Token>, gaps: seq<string>)
    requires |gaps| == |ts| + 1
  {
    && Gap(gaps[0], ts == [])
    && (ts != [] ==> !Prolongs(ts[0], TextOf(ts[1..], gaps[1..])) && Laid(ts[1..], gaps[1..]))
  }

  /** At `p` stands `s`, and the token `t` ends there. */
  ghost predicate Here(T: Text, p: nat, s: string, t: Token) {
    p + |s| <= |T.src| && T.src[p..p + |s|] == s && !Prolongs(t, T.src[p + |s|..])
  }

  lemma HereAt(T: Text, p: nat, s: string, t: Token, i: nat)
    requires Here(T, p, s, t) && i < |s|
    ensures p + i < |T.src| && T.src[p + i] == s[i]
  {
    assert T.src[p..p + |s|][i] == T.src[p + i];
  }

  lemma HereSlice(T: Text, p: nat, s: string, t: Token, i: nat, j: nat)
    requires Here(T, p, s, t) && i <= j <= |s|
    ensures T.src[p + i..p + j] == s[i..j]
  {
    assert T.src[p..p + |s|][i..j] == T.src[p + i..p + j];
  }

  lemma HereEnd(T: Text, p: nat, s: string, t: Token)
    requires Here(T, p, s, t)
    ensures p + |s| <= |T.src| && T.src[p..p + |s|] == s
    ensures p + |s| < |T.src| ==> T.src[p + |s|..][0] == T.src[p + |s|]
    ensures p + |s| + 1 < |T.src| ==> T.src[p + |s|..][1] == T.src[p + |s| + 1]
  {
  }

  lemma {:induction false} WordRun(T: Text, p: nat, q: nat)
    requires p <= q <= |T.src| && (q < |T.src| ==> !IsWordChar(T.src[q]))
    requires forall i :: p <= i < q ==> IsWordChar(T.src[i])
    ensures T.WordEnd(p) == q
    decreases q - p
  {
    if p < q {
      WordRun(T, p + 1, q);
    }
  }

  lemma {:induction false} DigitsRun(T: Text, p: nat, q: nat)
    requires p <= q <= |T.src| && (q < |T.src| ==> !IsDigit(T.src[q]))
    requires forall i :: p <= i < q ==> IsDigit(T.src[i])
    ensures T.DigitsEnd(p) == q
    decreases q - p
  {
    if p < q {
      DigitsRun(T, p + 1, q);
    }
  }

  lemma {:induction false} BodyRun(T: Text, p: nat, s: string)
    requires BodyShape(s) && p + |s| < |T.src| && T.src[p..p + |s|] == s && T.src[p + |s|] == '"'
    ensures T.StringEnd(p) == Some(p + |s|)
    decreases |s|
  {
    if s != [] {
      assert T.src[p] == T.src[p..p + |s|][0];
      var d := if s[0] == '\\' then 2 else 1;
      assert T.src[p + d..p + |s|] == s[d..];
      BodyRun(T, p + d, s[d..]);
    }
  }

  lemma ReadsWord(T: Text, p: nat, t: Token)
    requires WordShape(t.text) && KindOf(t.text) == t.kind && Here(T, p, t.text, t)
    ensures T.Scan(p) == Some((t, p + |t.text|))
  {
    hide KindOf, Text.Symbol, Text.Scan;
    HereEnd(T, p, t.text, t);
    forall i | 0 <= i < |t.text| ensures T.src[p + i] == t.text[i] {
      HereAt(T, p, t.text, t, i);
    }
    assert forall i :: p <= i < p + |t.text| ==> T.src[i] == t.text[i - p];
    WordRun(T, p, p + |t.text|);
    T.ScanCases(p);
  }

  lemma ReadsInt(T: Text, p: nat, t: Token)
    requires t.kind == TInt && Digits(t.text) && Here(T, p, t.text, t)
    ensures T.Scan(p) == Some((t, p + |t.text|))
  {
    hide KindOf, Text.Symbol, Text.Scan, Text.DigitsEnd, Text.WordEnd, Text.StringEnd;
    assert t.text[0..|t.text|] == t.text;
    HereEnd(T, p, t.text, t);
    DigitsHere(T, p, t.text, t, 0, |t.text|);
    T.ScanNumber(p);
  }

  lemma FloatEnds(T: Text, p: nat, t: Token)
    requires t.kind == TFloat && Here(T, p, t.text, t)
    ensures p + |t.text| <= |T.src| && (p + |t.text| < |T.src| ==> !IsDigit(T.src[p + |t.text|]))
  {
    HereEnd(T, p, t.text, t);
  }

  lemma FloatRun(T: Text, p: nat, t: Token) returns (q: nat)
    requires t.kind == TFloat && FloatShape(t.text) && Here(T, p, t.text, t)
    ensures p < q < p + |t.text| - 1 && IsDigit(T.src[p]) && T.DigitsEnd(p) == q && T.src[q] == '.'
    ensures IsDigit(T.src[q + 1]) && T.DigitsEnd(q + 1) == p + |t.text|
  {
    hide Text.DigitsEnd, Here, Digits;
    var s := t.text;
    var k :| 0 < k < |s| - 1 && Digits(s[..k]) && s[k] == '.' && Digits(s[k + 1..]);
    q := p + k;
    FloatEnds(T, p, t);
    HereAt(T, p, s, t, k);
    assert s[0..k] == s[..k] && s[k + 1..|s|] == s[k + 1..];
    DigitsHere(T, p, s, t, 0, k);
    DigitsHere(T, p, s, t, k + 1, |s|);
  }

  /** A part of `s` that is digits up to a character that is none. */
  lemma DigitsHere(T: Text, p: nat, s: string, t: Token, i: nat, j: nat)
    requires Here(T, p, s, t) && i < j <= |s| && Digits(s[i..j]) && (p + j < |T.src| ==> !IsDigit(T.src[p + j]))
    ensures IsDigit(T.src[p + i]) && T.DigitsEnd(p + i) == p + j
  {
    hide Text.DigitsEnd;
    HereSlice(T, p, s, t, i, j);
    AllDigitsRun(T, p + i, p + j);
    assert T.src[p + i] == T.src[p + i..p + j][0];
  }

  lemma ReadsFloat(T: Text, p: nat, t: Token)
    requires t.kind == TFloat && FloatShape(t.text) && Here(T, p, t.text, t)
    ensures T.Scan(p) == Some((t, p + |t.text|))
  {
    hide KindOf, Text.Symbol, Text.Scan, Text.DigitsEnd, Text.WordEnd, Text.StringEnd, FloatShape;
    var q := FloatRun(T, p, t);
    T.ScanNumber(p);
  }

  lemma AllDigitsRun(T: Text, p: nat, q: nat)
    requires p < q <= |T.src| && (q < |T.src| ==> !IsDigit(T.src[q])) && Digits(T.src[p..q])
    ensures T.DigitsEnd(p) == q
  {
    forall i | p <= i < q ensures IsDigit(T.src[i]) {
      assert T.src[i] == T.src[p..q][i - p];
    }
    DigitsRun(T, p, q);
  }

  lemma QuotesHere(T: Text, p: nat, t: Token)
    requires Here(T, p, "\"" + t.text + "\"", t)
    ensures p + |t.text| + 1 < |T.src| && T.src[p] == '"' && T.src[p + 1..p + 1 + |t.text|] == t.text
    ensures T.src[p + 1 + |t.text|] == '"'
  {
    var s := "\"" + t.text + "\"";
    HereAt(T, p, s, t, 0);
    HereAt(T, p, s, t, |t.text| + 1);
    HereSlice(T, p, s, t, 1, |t.text| + 1);
    assert s[1..|t.text| + 1] == t.text;
  }

  lemma ReadsString(T: Text, p: nat, t: Token)
    requires t.kind == TString && BodyShape(t.text) && Here(T, p, "\"" + t.text + "\"", t)
    ensures T.Scan(p) == Some((t, p + |t.text| + 2))
  {
    hide KindOf, Text.Symbol, Text.Scan, Text.DigitsEnd, Text.WordEnd, Text.StringEnd, BodyShape, Here;
    QuotesHere(T, p, t);
    BodyRun(T, p + 1, t.text);
    T.ScanCases(p);
  }

  lemma ReadsSymbol(T: Text, p: nat, t: Token)
    requires SymbolText(t.kind) == Some(t.text) && Here(T, p, t.text, t)
    ensures T.Scan(p) == Some((t, p + |t.text|))
  {
    hide KindOf, Text.Scan, Text.Symbol, Prolongs;
    HereEnd(T, p, t.text, t);
    SymbolStart(t);
    HereAt(T, p, t.text, t, 0);
    T.ScanCases(p);
    if |t.text| == 2 {
      HereAt(T, p, t.text, t, 1);
      ReadsTwo(T, p, t);
    } else {
      assert t.text == [T.src[p]];
      ReadsOne(T, p, t);
    }
  }

  lemma SymbolStart(t: Token)
    requires SymbolText(t.kind) == Some(t.text)
    ensures 1 <= |t.text| <= 2 && !IsDigit(t.text[0]) && !IsWordStart(t.text[0]) && t.text[0] != '"' &&
      !IsBlank(t.text[0]) && (t.text[0] as int) < 128
  {
  }

  lemma ReadsTwo(T: Text, p: nat, t: Token)
    requires SymbolText(t.kind) == Some(t.text) && |t.text| == 2
    requires p + 1 < |T.src| && T.src[p] == t.text[0] && T.src[p + 1] == t.text[1]
    ensures T.Symbol(p) == (t, p + 2)
  {
    assert T.src[p..p + 2] == t.text;
  }

  lemma ReadsOne(T: Text, p: nat, t: Token)
    requires SymbolText(t.kind) == Some(t.text) && |t.text| == 1
    requires p < |T.src| && T.src[p] == t.text[0] && !Prolongs(t, T.src[p + 1..])
    ensures T.Symbol(p) == (t, p + 1)
  {
    assert T.src[p..p + 1] == t.text;
    assert p + 1 < |T.src| ==> T.src[p + 1..][0] == T.src[p + 1];
  }

  lemma ScansToken(T: Text, p: nat, t: Token)
    requires Writable(t) && Here(T, p, SpellingOf(t), t)
    ensures p < |T.src| && T.Scan(p) == Some((t, p + |SpellingOf(t)|))
  {
    hide KindOf, Text.Scan, Text.Symbol, SymbolText, BodyShape, FloatShape, Prolongs, Writable, Digits, WordShape, Here;
    WritableCases(t);
    TokenStart(t);
    HereAt(T, p, SpellingOf(t), t, 0);
    if t.kind == TInt {
      ReadsInt(T, p, t);
    } else if t.kind == TFloat {
      ReadsFloat(T, p, t);
    } else if t.kind == TString {
      ReadsString(T, p, t);
    } else if SymbolText(t.kind) == Some(t.text) {
      ReadsSymbol(T, p, t);
    } else {
      ReadsWord(T, p, t);
    }
  }

  /** One token, and no gap in front of it. */
  lemma ReadsToken(T: Text, p: nat, t: Token)
    requires Writable(t) && Here(T, p, SpellingOf(t), t)
    ensures SpellingOf(t) != [] && T.Scan(p) == Some((t, p + |SpellingOf(t)|)) && T.Skip(p) == p
  {
    hide Text.Scan, Writable, SpellingOf, Here;
    TokenStart(t);
    ScansToken(T, p, t);
    HereAt(T, p, SpellingOf(t), t, 0);
    NoCommentHere(T, p, t);
  }

  lemma TokenStart(t: Token)
    requires Writable(t)
    ensures SpellingOf(t) != [] && !IsBlank(SpellingOf(t)[0]) && (SpellingOf(t)[0] as int) < 128
  {
    hide KindOf, SymbolText, BodyShape, FloatShape, Writable;
    WritableCases(t);
    if t.kind == TFloat {
      FloatStart(t.text);
    } else if t.kind != TInt && t.kind != TString && SymbolText(t.kind) == Some(t.text) {
      SymbolStart(t);
    }
  }

  lemma NoCommentHere(T: Text, p: nat, t: Token)
    requires Writable(t) && Here(T, p, SpellingOf(t), t) && SpellingOf(t) != []
    ensures !(T.At(p, '/') && T.At(p + 1, '/'))
  {
    hide KindOf, BodyShape, FloatShape;
    var s := SpellingOf(t);
    HereEnd(T, p, s, t);
    HereAt(T, p, s, t, 0);
    if s[0] == '/' {
      SlashOnly(t);
    }
  }

  lemma SlashOnly(t: Token)
    requires Writable(t) && SpellingOf(t) != [] && SpellingOf(t)[0] == '/'
    ensures t.kind == TSlash && t.text == "/"
  {
    hide KindOf, BodyShape, SymbolText, FloatShape, Writable;
    WritableCases(t);
    if t.kind == TFloat {
      FloatStart(t.text);
    } else if SymbolText(t.kind) == Some(t.text) {
      SlashSymbol(t);
    }
  }

  lemma SlashSymbol(t: Token)
    requires SymbolText(t.kind) == Some(t.text) && t.text != [] && t.text[0] == '/'
    ensures t.kind == TSlash && t.text == "/"
  {
  }

  lemma WritableCases(t: Token)
    requires Writable(t)
    ensures t.kind != TError && t.kind != TEof
    ensures t.kind == TInt ==> Digits(t.text)
    ensures t.kind == TFloat ==> FloatShape(t.text)
    ensures t.kind == TString ==> BodyShape(t.text)
    ensures t.kind != TInt && t.kind != TFloat && t.kind != TString ==>
      SymbolText(t.kind) == Some(t.text) || (WordShape(t.text) && KindOf(t.text) == t.kind)
  {
    hide KindOf, SymbolText, BodyShape, FloatShape, Digits, WordShape;
  }

  lemma FloatStart(s: string)
    requires FloatShape(s)
    ensures s != [] && IsDigit(s[0])
  {
    var k :| 0 < k < |s| - 1 && Digits(s[..k]) && s[k] == '.' && Digits(s[k + 1..]);
    assert s[..k][0] == s[0];
  }

  /** At `p` stands `g`. */
  ghost predicate Stands(T: Text, p: nat, g: string) {
    p + |g| <= |T.src| && T.src[p..p + |g|] == g
  }

  lemma StandsTail(T: Text, p: nat, g: string, k: nat)
    requires Stands(T, p, g) && k <= |g|
    ensures p + |g| <= |T.src| && Stands(T, p + k, g[k..])
    ensures k < |g| ==> T.src[p + k] == g[k]
  {
    assert T.src[p + k..p + |g|] == T.src[p..p + |g|][k..];
  }

  lemma SkipSpace(T: Text, p: nat)
    requires p < |T.src| && Space(T.src[p])
    ensures T.Skip(p) == T.Skip(p + 1)
  {
  }

  lemma SkipLine(T: Text, p: nat)
    requires T.At(p, '/') && T.At(p + 1, '/')
    ensures T.Skip(p) == T.Skip(T.LineEnd(p + 2))
  {
    hide Text.LineEnd;
  }

  /** A gap starts with one of the four characters or a comment. */
  lemma GapStart(g: string, last: bool) returns (k: nat)
    requires Gap(g, last) && g != []
    ensures 0 < k <= |g| && Gap(g[k..], last) && if Space(g[0]) && Gap(g[1..], last) then
      k == 1 else CommentTo(g, k, last)
  {
    if Space(g[0]) && Gap(g[1..], last) {
      k := 1;
    } else {
      k :| CommentTo(g, k, last) && Gap(g[k..], last);
    }
  }

  /** A gap in front is skipped. */
  lemma {:induction false} GapSkipped(T: Text, p: nat, g: string, last: bool)
    requires Stands(T, p, g) && Gap(g, last) && (last ==> p + |g| == |T.src|)
    ensures T.Skip(p) == T.Skip(p + |g|)
    decreases |g|
  {
    hide Text.LineEnd, Text.Skip, Stands, Gap, CommentTo;
    if g != [] {
      StandsTail(T, p, g, 0);
      var k := GapStart(g, last);
      if Space(g[0]) && Gap(g[1..], last) {
        StandsTail(T, p, g, 1);
        SkipSpace(T, p);
        GapSkipped(T, p + 1, g[1..], last);
      } else {
        CommentSkipped(T, p, g, k, last);
        GapSkipped(T, p + k, g[k..], last);
      }
    }
  }

  lemma CommentSkipped(T: Text, p: nat, g: string, k: nat, last: bool)
    requires Stands(T, p, g) && CommentTo(g, k, last) && (last ==> p + |g| == |T.src|)
    ensures 0 < k <= |g| && Stands(T, p + k, g[k..])
    ensures p + |g| <= |T.src| && T.Skip(p) == T.Skip(p + k)
  {
    hide Text.LineEnd, Text.Skip;
    StandsTail(T, p, g, 0);
    StandsTail(T, p, g, 1);
    StandsTail(T, p, g, k);
    CommentEnds(T, p, g, k, last);
    SkipLine(T, p);
  }

  lemma CommentEnds(T: Text, p: nat, g: string, k: nat, last: bool)
    requires Stands(T, p, g) && CommentTo(g, k, last) && (last ==> p + |g| == |T.src|)
    ensures T.LineEnd(p + 2) == p + k
  {
    forall i | p + 2 <= i < p + k ensures T.src[i] != '\n' {
      assert T.src[i] == g[i - p];
    }
    assert k < |g| ==> T.src[p + k] == g[k];
    LineRun(T, p + 2, p + k);
  }

  lemma {:induction false} LineRun(T: Text, p: nat, q: nat)
    requires p <= q <= |T.src| && (q < |T.src| ==> T.src[q] == '\n') && forall i :: p <= i < q ==> T.src[i] != '\n'
    ensures T.LineEnd(p) == q
    decreases q - p
  {
    if p < q {
      LineRun(T, p + 1, q);
    }
  }

  lemma Parts(T: Text, p: nat, ts: seq<Token>, gaps: seq<string>)
    requires |gaps| == |ts| + 1 && ts != [] && p <= |T.src| && T.src[p..] == TextOf(ts, gaps)
    ensures
      var a := p + |gaps[0]|;
      var b := a + |SpellingOf(ts[0])|;
      && b <= |T.src| && Stands(T, p, gaps[0]) && T.src[a..b] == SpellingOf(ts[0])
      && T.src[b..] == TextOf(ts[1..], gaps[1..])
  {
    hide SpellingOf;
    var g, s := gaps[0], SpellingOf(ts[0]);
    Cut(T.src, p, g, s, TextOf(ts[1..], gaps[1..]));
  }

  lemma Cut(src: string, p: nat, g: string, s: string, rest: string)
    requires p <= |src| && src[p..] == g + (s + rest)
    ensures p + |g| + |s| <= |src| && src[p..p + |g|] == g && src[p + |g|..p + |g| + |s|] == s
    ensures src[p + |g| + |s|..] == rest
  {
    var tail := src[p..];
    assert src[p..p + |g|] == tail[..|g|];
    assert src[p + |g|..p + |g| + |s|] == tail[|g|..][..|s|];
    assert src[p + |g| + |s|..] == tail[|g|..][|s|..];
  }

  lemma SkipAtEnd(T: Text)
    ensures T.Skip(|T.src|) == |T.src|
  {
  }

  lemma LaidParts(ts: seq<Token>, gaps: seq<string>)
    requires |gaps| == |ts| + 1 && Laid(ts, gaps) && ts != []
    ensures Gap(gaps[0], false) && !Prolongs(ts[0], TextOf(ts[1..], gaps[1..])) && Laid(ts[1..], gaps[1..])
  {
    hide Gap, Prolongs, TextOf;
  }

  /** A gap and a token are one step of the lexer. */
  lemma ReadsNext(T: Text, p: nat, ts: seq<Token>, gaps: seq<string>)
    requires |gaps| == |ts| + 1 && ts != [] && p <= |T.src| && T.src[p..] == TextOf(ts, gaps) && Laid(ts, gaps)
    requires Writable(ts[0])
    ensures
      var q := p + |gaps[0]| + |SpellingOf(ts[0])|;
      q <= |T.src| && T.Next(p) == Some((ts[0], q)) && T.src[q..] == TextOf(ts[1..], gaps[1..])
  {
    hide Text.Scan, Text.Skip, Writable, SpellingOf, Gap, Prolongs, TextOf, Laid, Stands;
    Parts(T, p, ts, gaps);
    LaidParts(ts, gaps);
    GapSkipped(T, p, gaps[0], false);
    ReadsToken(T, p + |gaps[0]|, ts[0]);
  }

  lemma ReadsEnd(T: Text, p: nat, g: string)
    requires p <= |T.src| && T.src[p..] == g && Gap(g, true)
    ensures T.Next(p) == Some((END, |T.src|))
  {
    hide Text.Scan, Text.Skip, Gap;
    assert T.src[p..p + |g|] == g;
    GapSkipped(T, p, g, true);
    SkipAtEnd(T);
  }

  /** Lexing a text of tokens and gaps gives exactly the tokens. */
  lemma {:induction false} TextReads(T: Text, p: nat, ts: seq<Token>, gaps: seq<string>)
    requires |gaps| == |ts| + 1 && p <= |T.src| && T.src[p..] == TextOf(ts, gaps) && Laid(ts, gaps)
    requires forall i :: 0 <= i < |ts| ==> Writable(ts[i])
    ensures T.All(p) == Some(ts)
    decreases |ts|
  {
    hide Text.Next, Text.All, Writable, SpellingOf, Gap, Prolongs;
    T.AllStep(p);
    if ts == [] {
      ReadsEnd(T, p, gaps[0]);
    } else {
      hide TextOf, Laid;
      ReadsNext(T, p, ts, gaps);
      LaidParts(ts, gaps);
      WritableCases(ts[0]);
      TextReads(T, p + |gaps[0]| + |SpellingOf(ts[0])|, ts[1..], gaps[1..]);
      assert ts == [ts[0]] + ts[1..];
    }
  }

  /** Any tokens can be laid out: with a space behind each. */
  lemma {:induction false} SpacesLaid(ts: seq<Token>, g: string)
    requires g == "" || g == " "
    ensures Laid(ts, [g] + seq(|ts|, _ => " "))
    decreases |ts|
  {
    var gaps := [g] + seq(|ts|, _ => " ");
    assert Gap(g, ts == []) by { assert g == " " ==> g[1..] == ""; }
    if ts != [] {
      assert gaps[1..] == [" "] + seq(|ts| - 1, _ => " ");
      SpacesLaid(ts[1..], " ");
      SpaceFirst(ts[1..], gaps[1..]);
    }
  }

  lemma SpaceFirst(ts: seq<Token>, gaps: seq<string>)
    requires |gaps| == |ts| + 1 && gaps[0] == " "
    ensures TextOf(ts, gaps) != [] && TextOf(ts, gaps)[0] == ' '
    ensures forall t: Token :: !Prolongs(t, TextOf(ts, gaps))
  {
  }

  /** A text of tokens and gaps starts with an ASCII character, so it has no byte order mark. */
  lemma NoMark(ts: seq<Token>, gaps: seq<string>)
    requires |gaps| == |ts| + 1 && Laid(ts, gaps) && forall i :: 0 <= i < |ts| ==> Writable(ts[i])
    ensures WithoutMark(TextOf(ts, gaps)) == TextOf(ts, gaps)
  {
    hide Writable, SpellingOf, WithoutMark;
    GapAscii(gaps[0], ts == []);
    if ts != [] {
      TokenStart(ts[0]);
    }
    MarkIsHigh(TextOf(ts, gaps));
  }

  lemma GapAscii(g: string, last: bool)
    requires Gap(g, last)
    ensures g == [] || (g[0] as int) < 128
  {
  }

  lemma MarkIsHigh(s: string)
    requires s == [] || (s[0] as int) < 128
    ensures WithoutMark(s) == s
  {
  }
}
