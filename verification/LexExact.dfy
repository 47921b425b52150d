/** The lexer's results are exactly the layouts of their tokens, and where it finds errors. */
module LexExact {
  import opened Wrappers
  import opened Decimal
  import opened Tokens
  import opened Lexing
  import opened LexRoundTrip

  // ----- what is skipped is a gap -----

  lemma GapSpace(c: char, g: string, last: bool)
    requires Space(c) && Gap(g, last)
    ensures Gap([c] + g, last)
  {
    hide CommentTo;
    assert ([c] + g)[1..] == g;
  }

  lemma GapComment(s: string, k: nat, last: bool)
    requires CommentTo(s, k, last) && Gap(s[k..], last)
    ensures Gap(s, last)
  {
  }

  /** What is skipped is a gap; only the last one may end in a comment without a newline. */
  lemma {:induction false} SkipGap(T: Text, p: nat)
    requires p <= |T.src|
    ensures Gap(T.src[p..T.Skip(p)], T.Skip(p) == |T.src|)
    decreases |T.src| - p
  {
    hide Gap, Text.LineEnd;
    var q := T.Skip(p);
    var last := q == |T.src|;
    if p < |T.src| && IsBlank(T.src[p]) {
      SkipGap(T, p + 1);
      GapSpace(T.src[p], T.src[p + 1..q], last);
      assert T.src[p..q] == [T.src[p]] + T.src[p + 1..q];
    } else if T.At(p, '/') && T.At(p + 1, '/') {
      var e := T.LineEnd(p + 2);
      SkipGap(T, e);
      CommentHere(T, p, q);
      assert T.src[p..q][e - p..] == T.src[e..q];
      GapComment(T.src[p..q], e - p, last);
    } else {
      NoGap(last);
      assert T.src[p..q] == [];
    }
  }

  lemma NoGap(last: bool)
    ensures Gap([], last)
  {
  }

  lemma CommentHere(T: Text, p: nat, q: nat)
    requires T.At(p, '/') && T.At(p + 1, '/') && q == T.Skip(T.LineEnd(p + 2))
    ensures T.LineEnd(p + 2) <= q <= |T.src| && p + 2 <= T.LineEnd(p + 2)
    ensures CommentTo(T.src[p..q], T.LineEnd(p + 2) - p, q == |T.src|)
  {
    hide Text.LineEnd;
    var e := T.LineEnd(p + 2);
    LineEndFree(T, p + 2);
    var s := T.src[p..q];
    forall i | 0 <= i < e - p ensures s[i] != '\n' {
      assert s[i] == T.src[p + i];
      if i >= 2 {
        assert T.src[p + i] == T.src[p + 2..e][i - 2];
      }
    }
    if e < |T.src| {
      SkipSpace(T, e);
    }
  }

  // ----- what is scanned is a token that ends there -----

  /** `t` is spelled from `p` to `q` and ends there. */
  ghost predicate Ends(T: Text, p: nat, q: nat, t: Token)
    requires p <= q <= |T.src|
  {
    Writable(t) && T.src[p..q] == SpellingOf(t) && !Prolongs(t, T.src[q..])
  }

  lemma NumberEnds(T: Text, p: nat)
    requires p < |T.src| && IsDigit(T.src[p])
    ensures T.Scan(p).Some? && Ends(T, p, T.Scan(p).value.1, T.Scan(p).value.0)
  {
    hide Text.Scan, Text.DigitsEnd;
    T.ScanNumber(p);
    var q := T.DigitsEnd(p);
    assert q > p;
    if T.At(q, '.') && q + 1 < |T.src| && IsDigit(T.src[q + 1]) {
      FloatEnds(T, p, q, T.DigitsEnd(q + 1));
    } else {
      assert q + 1 < |T.src| ==> T.src[q..][1] == T.src[q + 1];
    }
  }

  lemma FloatEnds(T: Text, p: nat, q: nat, e: nat)
    requires p < q && q + 1 < e <= |T.src| && T.src[q] == '.'
    requires (forall i :: p <= i < q ==> IsDigit(T.src[i])) && forall i :: q + 1 <= i < e ==> IsDigit(T.src[i])
    requires e < |T.src| ==> !IsDigit(T.src[e])
    ensures Ends(T, p, e, Token(TFloat, T.src[p..e]))
  {
    var s, k := T.src[p..e], q - p;
    assert s[..k] == T.src[p..q] && s[k] == '.' && s[k + 1..] == T.src[q + 1..e];
    assert FloatShape(s);
  }

  lemma WordEnds(T: Text, p: nat)
    requires p < |T.src| && IsWordStart(T.src[p])
    ensures T.Scan(p).Some? && Ends(T, p, T.Scan(p).value.1, T.Scan(p).value.0)
  {
    hide Text.Scan, Text.WordEnd, KindOf, SymbolText;
    T.ScanCases(p);
    var q := T.WordEnd(p);
    var s := T.src[p..q];
    assert WordShape(s);
    WordWritable(s);
  }

  lemma WordWritable(s: string)
    requires WordShape(s)
    ensures Writable(Token(KindOf(s), s))
    ensures forall rest :: Prolongs(Token(KindOf(s), s), rest) ==> rest != [] && (Letter(rest[0]) || Digit(rest[0]))
  {
    hide KindOf, SymbolText;
  }

  /** What the closing quote closes. */
  lemma {:induction false} StringBody(T: Text, p: nat)
    requires p <= |T.src| && T.StringEnd(p).Some? && T.StringEnd(p).value < |T.src|
    ensures BodyShape(T.src[p..T.StringEnd(p).value])
    decreases |T.src| - p
  {
    var q := T.StringEnd(p).value;
    if T.src[p] != '"' {
      var d := if T.src[p] == '\\' then 2 else 1;
      StringBody(T, p + d);
      assert T.src[p..q][d..] == T.src[p + d..q];
      assert T.src[p..q][0] == T.src[p];
    }
  }

  lemma QuotedWritable(s: string, rest: string)
    requires BodyShape(s)
    ensures
      var t := Token(TString, s);
      Writable(t) && SpellingOf(t) == "\"" + s + "\"" && !Prolongs(t, rest)
  {
    hide BodyShape;
  }

  lemma StringEnds(T: Text, p: nat)
    requires p < |T.src| && T.src[p] == '"' && T.StringEnd(p + 1).Some? && T.StringEnd(p + 1).value < |T.src|
    ensures T.Scan(p).Some? && Ends(T, p, T.Scan(p).value.1, T.Scan(p).value.0)
  {
    hide Text.Scan, Text.StringEnd, Text.Symbol, KindOf, BodyShape, Writable, SpellingOf, Prolongs;
    T.ScanCases(p);
    StringBody(T, p + 1);
    var q := T.StringEnd(p + 1).value;
    QuotedWritable(T.src[p + 1..q], T.src[q + 1..]);
    assert T.src[p..q + 1] == "\"" + T.src[p + 1..q] + "\"";
  }

  lemma SymbolEnds(T: Text, p: nat)
    requires p < |T.src| && T.Symbol(p).0.kind != TError
    requires !(T.At(p, '/') && T.At(p + 1, '/'))
    ensures var (t, q) := T.Symbol(p); Ends(T, p, q, t)
  {
    hide Prolongs, Writable;
    var (t, q) := T.Symbol(p);
    SymbolKnown(T, p);
    SymbolShort(t);
    SymbolWritable(t);
    SymbolStops(T, p);
  }

  lemma SymbolKnown(T: Text, p: nat)
    requires p < |T.src| && T.Symbol(p).0.kind != TError
    ensures var (t, q) := T.Symbol(p); SymbolText(t.kind) == Some(t.text) && T.src[p..q] == t.text
  {
    hide Text.Symbol, SymbolText;
    SymbolSlice(T, p);
    if T.Symbol(p).1 == p + 1 {
      SymbolOne(T, p);
      assert T.src[p..p + 1] == [T.src[p]];
    } else {
      SymbolTwo(T, p);
      assert T.src[p..p + 2] == [T.src[p], T.src[p + 1]];
    }
  }

  lemma SymbolSlice(T: Text, p: nat)
    requires p < |T.src| && T.Symbol(p).0.kind != TError
    ensures var (t, q) := T.Symbol(p); p < q <= p + 2 && q <= |T.src| && t.text == T.src[p..q]
  {
  }

  lemma SymbolOne(T: Text, p: nat)
    requires p < |T.src| && T.Symbol(p).0.kind != TError && T.Symbol(p).1 == p + 1
    ensures SymbolText(T.Symbol(p).0.kind) == Some([T.src[p]])
  {
  }

  lemma SymbolTwo(T: Text, p: nat)
    requires p + 1 < |T.src| && T.Symbol(p).1 == p + 2
    ensures SymbolText(T.Symbol(p).0.kind) == Some([T.src[p], T.src[p + 1]])
  {
  }

  lemma SymbolShort(t: Token)
    requires SymbolText(t.kind) == Some(t.text)
    ensures SpellingOf(t) == t.text
  {
  }

  lemma SymbolWritable(t: Token)
    requires SymbolText(t.kind) == Some(t.text)
    ensures Writable(t)
  {
    hide KindOf, BodyShape, FloatShape;
  }

  lemma SymbolStops(T: Text, p: nat)
    requires p < |T.src| && T.Symbol(p).0.kind != TError
    requires !(T.At(p, '/') && T.At(p + 1, '/'))
    ensures var (t, q) := T.Symbol(p); !Prolongs(t, T.src[q..])
  {
    hide Text.Symbol, SymbolText;
    SymbolFollowed(T, p);
    SymbolNoWord(T, p);
    var (t, q) := T.Symbol(p);
    assert q < |T.src| ==> T.src[q..][0] == T.src[q];
  }

  /** A one-character token is not the first half of a longer one. */
  lemma SymbolFollowed(T: Text, p: nat)
    requires p < |T.src| && !(T.At(p, '/') && T.At(p + 1, '/'))
    ensures
      var (t, q) := T.Symbol(p);
      && (t.kind == TMinus ==> !T.At(q, '>')) && (t.kind == TDot ==> !T.At(q, '.'))
      && (t.kind == TSlash ==> !T.At(q, '/'))
      && (t.kind in {TAssign, TBang, TLess, TGreater} ==> !T.At(q, '='))
  {
  }

  lemma SymbolNoWord(T: Text, p: nat)
    requires p < |T.src| && T.Symbol(p).0.kind != TError
    ensures
      var t := T.Symbol(p).0;
      t.kind !in {TInt, TFloat, TString} && !(t.text != [] && Letter(t.text[0]))
  {
    hide Text.Symbol, Spells;
    SymbolKnown(T, p);
    SymbolKinds(T.Symbol(p).0);
  }

  lemma SymbolKinds(t: Token)
    requires SymbolText(t.kind) == Some(t.text)
    ensures t.kind !in {TInt, TFloat, TString} && !(t.text != [] && Letter(t.text[0]))
  {
  }

  /** A token without an error ends where the lexer ends it. */
  lemma ScanEnds(T: Text, p: nat)
    requires p < |T.src| && T.Skip(p) == p && T.Scan(p).Some? && T.Scan(p).value.0.kind != TError
    ensures Ends(T, p, T.Scan(p).value.1, T.Scan(p).value.0)
  {
    hide Text.Scan, Text.Skip, Text.StringEnd, Text.DigitsEnd, Text.WordEnd, Text.Symbol, KindOf, Ends;
    SkipStops(T, p);
    var c := T.src[p];
    if IsDigit(c) {
      NumberEnds(T, p);
    } else if IsWordStart(c) {
      WordEnds(T, p);
    } else {
      T.ScanCases(p);
      if c == '"' {
        StringEnds(T, p);
      } else {
        SymbolEnds(T, p);
      }
    }
  }

  lemma {:induction false} SkipTwice(T: Text, p: nat)
    requires p <= |T.src|
    ensures T.Skip(T.Skip(p)) == T.Skip(p)
    decreases |T.src| - p
  {
    hide Text.LineEnd;
    if p < |T.src| && IsBlank(T.src[p]) {
      SkipTwice(T, p + 1);
    } else if T.At(p, '/') && T.At(p + 1, '/') {
      SkipTwice(T, T.LineEnd(p + 2));
    }
  }

  // ----- the whole text -----

  /** The text is these tokens, with gaps that keep them apart. */
  ghost predicate Lays(src: string, ts: seq<Token>, gaps: seq<string>) {
    && |gaps| == |ts| + 1 && src == TextOf(ts, gaps) && Laid(ts, gaps)
    && forall i :: 0 <= i < |ts| ==> Writable(ts[i])
  }

  predicate NoErrors(ts: seq<Token>) {
    forall i :: 0 <= i < |ts| ==> ts[i].kind != TError
  }

  lemma LaysLast(g: string)
    requires Gap(g, true)
    ensures Lays(g, [], [g])
  {
    hide Gap;
  }

  lemma LaysFirst(src: string, g: string, t: Token, rest: string, ts: seq<Token>, gaps: seq<string>)
    requires Gap(g, false) && Writable(t) && !Prolongs(t, rest) && Lays(rest, ts, gaps)
    requires src == g + (SpellingOf(t) + rest)
    ensures Lays(src, [t] + ts, [g] + gaps)
  {
    hide Gap, Writable, Prolongs, SpellingOf;
    assert ([t] + ts)[1..] == ts && ([g] + gaps)[1..] == gaps;
  }

  lemma ThreeParts(src: string, p: nat, a: nat, b: nat)
    requires p <= a <= b <= |src|
    ensures src[p..] == src[p..a] + (src[a..b] + src[b..])
  {
  }

  /** What the lexer gives without an error is laid out in the text. */
  lemma {:induction false} LexedLays(T: Text, p: nat) returns (gaps: seq<string>)
    requires p <= |T.src| && T.All(p).Some? && NoErrors(T.All(p).value)
    ensures Lays(T.src[p..], T.All(p).value, gaps)
    decreases |T.src| - p
  {
    hide Text.All, Text.Scan, Text.Skip, Lays, Gap, Writable, Prolongs, SpellingOf;
    T.AllStep(p);
    var ts := T.All(p).value;
    var a := T.Skip(p);
    SkipGap(T, p);
    if a == |T.src| {
      assert T.src[p..a] == T.src[p..];
      gaps := [T.src[p..]];
      LaysLast(T.src[p..]);
    } else {
      var (t, b) := T.Scan(a).value;
      assert ts[1..] == T.All(b).value;
      assert ts[0] == t;
      SkipTwice(T, p);
      ScanEnds(T, a);
      var rest := LexedLays(T, b);
      ThreeParts(T.src, p, a, b);
      LaysFirst(T.src[p..], T.src[p..a], t, T.src[b..], ts[1..], rest);
      gaps := [T.src[p..a]] + rest;
    }
  }

  /** Lexing gives these tokens, none of them an error, if and only if the text is a layout
      of them. */
  lemma LexesExactly(src: string, ts: seq<Token>)
    requires NoErrors(ts)
    ensures Text(src).All(0) == Some(ts) <==> exists gaps :: Lays(src, ts, gaps)
  {
    hide Text.All, TextOf, Laid, Writable;
    var T := Text(src);
    assert src[0..] == src;
    if T.All(0) == Some(ts) {
      var gaps := LexedLays(T, 0);
    }
    if exists gaps :: Lays(src, ts, gaps) {
      var gaps :| Lays(src, ts, gaps);
      TextReads(T, 0, ts, gaps);
    }
  }

  // ----- errors -----

  /** A closing quote that no backslash takes stands somewhere behind `p`. */
  ghost predicate Closed(T: Text, p: nat) {
    exists q: nat :: p <= q < |T.src| && T.src[q] == '"' && BodyShape(T.src[p..q])
  }

  /** The characters that are operators or delimiters, or start one. */
  predicate Single(c: char) {
    match c
    case '(' | ')' | '{' | '}' | '[' | ']' | ',' | ':' | ';' => true
    case '+' | '-' | '*' | '/' | '%' | '.' | '=' | '!' | '<' | '>' => true
    case _ => false
  }

  /** What can stand at the start of a token. */
  predicate Starts(T: Text, p: nat)
    requires p < |T.src|
  {
    var c := T.src[p];
    Letter(c) || Digit(c) || c == '"' || Single(c) || ((c == '&' || c == '|') && T.At(p + 1, c))
  }

  /** The lexer finds an error, or runs over the end of the text, exactly at a character
      that starts no token and at a string that is never closed. */
  lemma ErrorsExactly(T: Text, p: nat)
    requires p < |T.src|
    ensures T.Scan(p).None? || T.Scan(p).value.0.kind == TError <==>
      !Starts(T, p) || (T.src[p] == '"' && !Closed(T, p + 1))
  {
    hide Text.Scan, Text.StringEnd, Text.DigitsEnd, Text.WordEnd, KindOf, BodyShape, Text.Symbol;
    T.ScanCases(p);
    var c := T.src[p];
    if c == '"' {
      ClosedExactly(T, p + 1);
    } else if !IsDigit(c) && !IsWordStart(c) {
      SymbolErrors(T, p);
    }
  }

  lemma ClosedExactly(T: Text, p: nat)
    requires p <= |T.src|
    ensures Closed(T, p) <==> T.StringEnd(p).Some? && T.StringEnd(p).value < |T.src|
  {
    hide Text.StringEnd, BodyShape;
    if T.StringEnd(p).Some? && T.StringEnd(p).value < |T.src| {
      StringBody(T, p);
    }
    if Closed(T, p) {
      var q: nat :| p <= q < |T.src| && T.src[q] == '"' && BodyShape(T.src[p..q]);
      BodyRun(T, p, T.src[p..q]);
    }
  }

  lemma SymbolErrors(T: Text, p: nat)
    requires p < |T.src| && !IsDigit(T.src[p]) && !IsWordStart(T.src[p]) && T.src[p] != '"'
    ensures T.Symbol(p).0.kind == TError <==> !Starts(T, p)
  {
  }

  /** A byte order mark in front is dropped, and nothing else. */
  lemma MarkDropped(s: string)
    ensures
      var mark := [0xEF as char, 0xBB as char, 0xBF as char];
      WithoutMark(mark + s) == s && (!(mark <= s) ==> WithoutMark(s) == s)
  {
  }

  // ----- words -----

  /** The 27 keywords. */
  lemma Keywords()
    ensures KindOf("let") == TLet && KindOf("fn") == TFn && KindOf("return") == TReturn && KindOf("if") == TIf
    ensures KindOf("else") == TElse && KindOf("for") == TFor && KindOf("while") == TWhile && KindOf("in") == TIn
    ensures KindOf("class") == TClass && KindOf("self") == TSelf && KindOf("true") == TTrue && KindOf("false") == TFalse
    ensures KindOf("nil") == TNil && KindOf("print") == TPrint && KindOf("import") == TImport &&
      KindOf("server") == TServer
    ensures KindOf("route") == TRoute && KindOf("respond") == TRespond && KindOf("on") == TOn &&
      KindOf("security") == TSecurity
    ensures KindOf("async") == TAsync && KindOf("await") == TAwait && KindOf("break") == TBreak &&
      KindOf("continue") == TContinue
    ensures KindOf("not") == TNot && KindOf("and") == TAnd && KindOf("or") == TOr
  {
    hide KindOf;
    KeywordKind(0);
    KeywordKind(1);
    KeywordKind(2);
    KeywordKind(3);
    KeywordKind(4);
    KeywordKind(5);
    KeywordKind(6);
    KeywordKind(7);
    KeywordKind(8);
    KeywordKind(9);
    KeywordKind(10);
    KeywordKind(11);
    KeywordKind(12);
    KeywordKind(13);
    KeywordKind(14);
    KeywordKind(15);
    KeywordKind(16);
    KeywordKind(17);
    KeywordKind(18);
    KeywordKind(19);
    KeywordKind(20);
    KeywordKind(21);
    KeywordKind(22);
    KeywordKind(23);
    KeywordKind(24);
    KeywordKind(25);
    KeywordKind(26);
  }

  /** Every other word is an identifier. */
  lemma OtherWords(word: string)
    requires word !in {"let", "fn", "return", "if", "else", "for", "while", "in", "class", "self", "true",
      "false", "nil", "print", "import", "server", "route", "respond", "on", "security", "async", "await",
      "break", "continue", "not", "and", "or"}
    ensures KindOf(word) == TIdent
  {
    hide WordKind;
    forall i | 0 <= i < KEYWORD_COUNT ensures Spelling(i) != word {
    }
    NoKeyword(word, 0);
  }
}
