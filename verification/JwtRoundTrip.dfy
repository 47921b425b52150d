/** What is signed is what is verified. */
module JwtRoundTrip {
  import opened Wrappers
  import opened Decimal
  import opened Base64
  import opened Jwt

  // ----- where the three entries stand -----

  lemma SubjectFirst(json: string, rest: string)
    requires json == BEFORE_SUB + rest
    ensures StrStr(json, SUB, 0) == Some(1) && json[1 + 7..] == rest
  {
    assert json[0] == '{';
    assert json[1..8] == SUB;
    FirstOccurrence(json, SUB, 1);
  }

  /** The subject up to its first quote is what is read, up to 255 characters. */
  lemma SubjectReads(subject: string, rest: string)
    requires '"' !in subject
    ensures SubjectOf(BEFORE_SUB + (subject + (['"'] + rest))) == Some(subject)
  {
    var tail := subject + (['"'] + rest);
    SubjectFirst(BEFORE_SUB + tail, tail);
    FirstChar(subject, '"', rest);
    assert subject + ['"'] + rest == tail;
    assert tail[..|subject|] == subject;
  }

  /** A payload: the subject has `n` characters, the first number `m`. */
  ghost predicate Layout(json: string, n: nat, m: nat) {
    && |json| >= 16 + n + m + 7
    && json[..8] == BEFORE_SUB && json[8 + n..16 + n] == BEFORE_IAT
    && '"' !in json[16 + n..16 + n + m] && json[16 + n + m..16 + n + m + 7] == BEFORE_EXP
  }

  /** From place `at` on `s` is `text`. */
  ghost predicate From(s: string, at: nat, text: string) {
    at <= |s| && s[at..] == text
  }

  /** The text at a place, and what is behind it. */
  lemma Piece(s: string, at: nat, p: string, rest: string)
    requires From(s, at, p + rest)
    ensures at + |p| <= |s| && s[at..at + |p|] == p && From(s, at + |p|, rest)
  {
    assert s[at..at + |p|] == s[at..][..|p|];
    assert s[at + |p|..] == s[at..][|p|..];
  }

  lemma Lengths()
    ensures |BEFORE_SUB| == 8 && |BEFORE_IAT| == 8 && |BEFORE_EXP| == 7 && BEFORE_SUB[7] == '"'
    ensures |IAT| == 6 && |EXP| == 6
  {
  }

  lemma PayloadLayout(json: string, subject: string, n1: string, text: string)
    requires '"' !in n1 && From(json, 0, BEFORE_SUB + (subject + (BEFORE_IAT + (n1 + (BEFORE_EXP + text)))))
    ensures Layout(json, |subject|, |n1|) && json[7..8 + |subject|] == "\"" + subject
    ensures From(json, 16 + |subject|, n1 + (BEFORE_EXP + text)) && From(json, 16 + |subject| + |n1| + 7, text)
    ensures Begins(json, "\"" + subject, BEFORE_IAT + (n1 + (BEFORE_EXP + text)))
  {
    hide BEFORE_SUB, BEFORE_IAT, BEFORE_EXP, From, Begins;
    Lengths();
    var n, m, tail := |subject|, |n1|, BEFORE_IAT + (n1 + (BEFORE_EXP + text));
    Piece(json, 0, BEFORE_SUB, subject + tail);
    Piece(json, 8, subject, tail);
    Piece(json, 8 + n, BEFORE_IAT, n1 + (BEFORE_EXP + text));
    Piece(json, 16 + n, n1, BEFORE_EXP + text);
    Piece(json, 16 + n + m, BEFORE_EXP, text);
    QuoteFirst(json, subject, tail);
  }

  lemma QuoteFirst(json: string, subject: string, tail: string)
    requires From(json, 8, subject + tail) && |json| >= 8 + |subject|
    requires json[8..8 + |subject|] == subject && json[7] == '"'
    ensures json[7..8 + |subject|] == "\"" + subject && Begins(json, "\"" + subject, tail)
  {
    assert json[7..8 + |subject|] == [json[7]] + json[8..8 + |subject|];
    assert json[7..] == [json[7]] + json[8..];
    assert [json[7]] + (subject + tail) == [json[7]] + subject + tail;
  }

  /** The quotes outside the subject in front of the key of the second number, and what
      follows each. */
  lemma QuotesIn(json: string, n: nat, m: nat, i: nat)
    requires Layout(json, n, m) && i < 16 + n + m + 1 && !(7 <= i < 8 + n) && json[i] == '"'
    ensures
      || (i == 1 && json[2] == 's') || (i == 5 && json[6] == ':')
      || (i == 8 + n && json[9 + n] == ',') || (i == 10 + n && json[11 + n] == 'i') ||
        (i == 14 + n && json[15 + n] == ':')
  {
    if i < 8 {
      assert json[i] == json[..8][i] == BEFORE_SUB[i];
      assert json[2] == json[..8][2] && json[6] == json[..8][6];
    } else if 8 + n <= i < 16 + n {
      var w := json[8 + n..16 + n];
      assert json[i] == w[i - 8 - n];
      assert json[9 + n] == w[1] && json[11 + n] == w[3] && json[15 + n] == w[7];
    }
  }

  /** The subject is followed by a quote and a comma. */
  lemma AfterSubject(json: string, n: nat, m: nat)
    requires Layout(json, n, m)
    ensures json[8 + n] == '"' && json[9 + n] == ','
  {
    var w := json[8 + n..16 + n];
    assert json[8 + n] == w[0] && json[9 + n] == w[1];
  }

  lemma SliceOfSlice(s: string, a: nat, b: nat, i: nat, d: nat)
    requires a <= i && i + d <= b <= |s|
    ensures s[a..b][i - a..i - a + d] == s[i..i + d]
  {
    var l, r := s[a..b][i - a..i - a + d], s[i..i + d];
    forall k | 0 <= k < d ensures l[k] == r[k] {
      assert l[k] == s[a..b][i - a + k];
    }
    assert l == r;
  }

  /** From its seventh character on `json` is `q` and then `tail`. */
  ghost predicate Begins(json: string, q: string, tail: string) {
    |json| >= 7 && json[7..] == q + tail
  }

  lemma BeginsRest(json: string, q: string, tail: string, k: nat)
    requires Begins(json, q, tail) && k <= |q|
    ensures 7 + k <= |json| && json[7 + k..] == q[k..] + tail
  {
    assert json[7 + k..] == json[7..][k..];
    assert (q + tail)[k..] == q[k..] + tail;
  }

  /** Before its own place the key stands only within the subject and the quote in front of
      it: a subject that ends like the key is followed by a comma, not by a colon. */
  lemma EarlierInSubject(json: string, n: nat, m: nat, key: string, i: nat)
    requires Layout(json, n, m) && (key == IAT || key == EXP)
    requires i < if key == IAT then 10 + n else 16 + n + m + 1
    ensures Occurs(json, key, i) <==> 7 <= i && Occurs(json[7..8 + n], key, i - 7)
  {
    if 7 <= i <= n + 2 {
      SliceOfSlice(json, 7, 8 + n, i, 6);
    }
    if Occurs(json, key, i) {
      var w := json[i..i + 6];
      assert json[i] == w[0] && json[i + 1] == w[1] && json[i + 4] == w[4] && json[i + 5] == w[5];
      assert json[i + 2] == w[2] && json[i + 3] == w[3];
      if !(7 <= i < 8 + n) {
        QuotesIn(json, n, m, i);
      }
      AfterSubject(json, n, m);
    }
  }

  /** Where the key is found: in the subject, with the quote in front of it, if it stands
      there, otherwise in its own place. */
  lemma KeyFound(json: string, n: nat, m: nat, key: string)
    requires Layout(json, n, m) && (key == IAT || key == EXP)
    ensures
      var k := StrStr(json[7..8 + n], key, 0);
      var own := if key == IAT then 10 + n else 16 + n + m + 1;
      own + 6 <= |json| && StrStr(json, key, 0) == Some(if k.Some? then 7 + k.value else own)
  {
    hide Layout, Occurs;
    KeyStands(json, n, m, key);
    var k := StrStr(json[7..8 + n], key, 0);
    var own := if key == IAT then 10 + n else 16 + n + m + 1;
    var found := if k.Some? then 7 + k.value else own;
    forall i | 0 <= i < found ensures !Occurs(json, key, i) {
      if 8 + n <= i {
        NotBehind(json[7..8 + n], key, i - 7);
      }
      EarlierInSubject(json, n, m, key, i);
    }
    if k.Some? {
      EarlierInSubject(json, n, m, key, found);
    }
    FirstOccurrence(json, key, found);
  }

  lemma NotBehind(s: string, pattern: string, i: nat)
    requires pattern != "" && |s| <= i
    ensures !Occurs(s, pattern, i)
  {
  }

  lemma KeyStands(json: string, n: nat, m: nat, key: string)
    requires Layout(json, n, m) && (key == IAT || key == EXP)
    ensures var own := if key == IAT then 10 + n else 16 + n + m + 1; own + 6 <= |json| && Occurs(json, key, own)
    ensures 8 + n <= |json|
  {
    if key == IAT {
      SliceOfSlice(json, 8 + n, 16 + n, 10 + n, 6);
    } else {
      SliceOfSlice(json, 16 + n + m, 16 + n + m + 7, 16 + n + m + 1, 6);
    }
  }

  /** A subject without a quote holds no key. */
  lemma NoKeyInside(subject: string, key: string)
    requires '"' !in subject && (key == IAT || key == EXP)
    ensures StrStr("\"" + subject, key, 0) == None
  {
    var q := "\"" + subject;
    forall i | 0 <= i <= |q| ensures !Occurs(q, key, i) {
      if i + 6 <= |q| {
        assert q[i..i + 6][4] == q[i + 4];
      }
    }
  }

  lemma AtolReads(n: int, rest: string)
    requires INT64_MIN <= n <= INT64_MAX && rest != [] && !IsDigit(rest[0])
    ensures Atol(IntText(n) + rest) == n
  {
    hide ParseInt, IntText;
    IntTextOctets(n);
    assert SkipSpace(IntText(n) + rest) == IntText(n) + rest;
    ParseIntText(n, rest);
  }

  /** What is read as the number behind a key: the text in the subject, if the key stands in
      `q`, the subject with the quote in front of it. */
  function Found(q: string, key: string, tail: string, own: int): int {
    var k := StrStr(q, key, 0);
    if k.Some? then Atol(q[k.value + |key|..] + tail) else own
  }

  /** What stands behind the two keys. */
  function TailOf(iat: int, exp: int, rest: string): string {
    BEFORE_IAT + (IntText(iat) + (BEFORE_EXP + (IntText(exp) + rest)))
  }

  lemma NumbersRead(subject: string, iat: int, exp: int, rest: string)
    requires rest != [] && !IsDigit(rest[0])
    requires INT64_MIN <= iat <= INT64_MAX && INT64_MIN <= exp <= INT64_MAX
    ensures
      var tail := TailOf(iat, exp, rest);
      var json := BEFORE_SUB + (subject + tail);
      && NumberAt(json, IAT) == Found("\"" + subject, IAT, tail, iat)
      && NumberAt(json, EXP) == Found("\"" + subject, EXP, tail, exp)
  {
    hide IntText, Atol, Occurs, StrStr, Found, NumberAt, IsDigit, Layout, Begins, BEFORE_SUB, BEFORE_IAT, BEFORE_EXP,
         IAT, EXP;
    var n1, text := IntText(iat), IntText(exp) + rest;
    var tail, n := TailOf(iat, exp, rest), |subject|;
    var json := BEFORE_SUB + (subject + tail);
    Lengths();
    IntTextOctets(iat);
    assert From(json, 0, json);
    PayloadLayout(json, subject, n1, text);
    KeyFound(json, n, |n1|, IAT);
    KeyFound(json, n, |n1|, EXP);
    CommaFirst(text);
    AtolReads(iat, BEFORE_EXP + text);
    AtolReads(exp, rest);
    FoundAt(json, "\"" + subject, tail, IAT, iat, 10 + n);
    FoundAt(json, "\"" + subject, tail, EXP, exp, 16 + n + |n1| + 1);
  }

  lemma CommaFirst(text: string)
    ensures BEFORE_EXP + text != "" && !IsDigit((BEFORE_EXP + text)[0]) && EXP != IAT
  {
    assert EXP[1] != IAT[1];
  }

  lemma FoundAt(json: string, q: string, tail: string, key: string, own: int, at: nat)
    requires Begins(json, q, tail) && at + |key| <= |json| && Atol(json[at + |key|..]) == own
    requires var k := StrStr(q, key, 0); StrStr(json, key, 0) == Some(if k.Some? then 7 + k.value else at)
    ensures NumberAt(json, key) == Found(q, key, tail, own)
  {
    hide Atol, StrStr, Occurs, Begins;
    var k := StrStr(q, key, 0);
    if k.Some? {
      BeginsRest(json, q, tail, k.value + |key|);
    }
  }

  lemma ClaimsEnd(claims: seq<Claim>)
    requires forall i :: 0 <= i < |claims| ==> CText(claims[i].key) && CText(claims[i].value)
    ensures !IsDigit((ClaimsText(claims) + "}")[0])
  {
    hide ClaimsText;
    ClaimsOctets(claims);
  }

  /** Reading a payload gives back what was written; no claim can stand in front. */
  lemma ReadsPayload(subject: string, iat: int, exp: int, claims: seq<Claim>)
    requires CTexts(subject, claims) && '"' !in subject && |subject| <= 255
    requires INT64_MIN <= iat <= INT64_MAX && INT64_MIN <= exp <= INT64_MAX
    ensures SubjectOf(PayloadText(subject, iat, exp, claims)) == Some(subject)
    ensures Read(PayloadText(subject, iat, exp, claims)) == Payload(subject, iat, exp, false)
  {
    hide IntText, ClaimsText, SubjectOf, NumberAt, IsDigit, CText;
    ClaimsEnd(claims);
    NumbersRead(subject, iat, exp, ClaimsText(claims) + "}");
    NoKeyInside(subject, IAT);
    NoKeyInside(subject, EXP);
    var tail := IntText(iat) + (BEFORE_EXP + (IntText(exp) + (ClaimsText(claims) + "}")));
    assert ['"'] + (BEFORE_IAT[1..] + tail) == BEFORE_IAT + tail;
    SubjectReads(subject, BEFORE_IAT[1..] + tail);
  }

  // ----- whole tokens -----

  lemma SplitParts(a: string, b: string, c: string)
    requires '.' !in a && '.' !in b
    ensures Split(a + "." + b + "." + c) == Some((a, b, c))
  {
    var rest := b + ['.'] + c;
    var t := a + ['.'] + rest;
    assert a + "." + b + "." + c == t;
    FirstChar(a, '.', rest);
    FirstChar(b, '.', c);
    assert t[|a| + 1..] == rest;
    assert t[..|a|] == a && rest[..|b|] == b && rest[|b| + 1..] == c;
  }

  lemma HeaderClean()
    ensures |EncodedHeader()| == 36 && '.' !in EncodedHeader()
  {
    hide Encode;
    assert |HEADER| == 27;
    EncodedClean(HEADER);
  }

  /** A token's two dots are where the parts meet. */
  lemma TokenParts(J: Signer, payload: string)
    requires Octets(payload)
    ensures Split(J.TokenOf(payload)) ==
      Some((EncodedHeader(), Encode(payload), Encode(J.mac(J.secret, EncodedHeader() + "." + Encode(payload)))))
  {
    hide Encode, Split, EncodedHeader;
    HeaderClean();
    EncodedClean(payload);
    SplitParts(EncodedHeader(), Encode(payload), Encode(J.mac(J.secret, EncodedHeader() + "." + Encode(payload))));
  }

  /** The length of the token of a payload of `n` characters. */
  function TokenSize(n: nat): nat {
    81 + n / 3 * 4 + if n % 3 == 0 then 0 else n % 3 + 1
  }

  lemma TokenLength(J: Signer, payload: string)
    requires Octets(payload)
    ensures |J.TokenOf(payload)| == TokenSize(|payload|)
    ensures |payload| < MAX_PAYLOAD ==> |J.TokenOf(payload)| < MAX_TOKEN && |Encode(payload)| < MAX_TOKEN
  {
    hide Encode, EncodedHeader;
    HeaderClean();
  }

  /** What the verifier makes of an untruncated token. */
  lemma VerifiesToken(J: Signer, payload: string, now: int)
    requires CText(payload) && 0 < |payload| < MAX_PAYLOAD
    ensures J.Verify(J.TokenOf(payload), now) ==
      var p := Read(payload);
      var ok := p.expiresAt <= 0 || now <= p.expiresAt;
      (ok, p.(valid := ok))
  {
    hide Encode, Decode, Read, Signer.TokenOf, Split, CString, EncodedHeader;
    TokenParts(J, payload);
    TokenLength(J, payload);
    RoundTrip(payload);
    CStringOf(payload);
    assert payload[..|payload|] == payload;
  }

  /** Sign, then verify: for a quote-free subject of at most 255 characters, any claims
      whose payload fits, and a buffer that holds the token, verification gives back the
      subject and both times, whatever the claims, and succeeds exactly until the token expires. */
  lemma SignThenVerify(J: Signer, subject: string, claims: seq<Claim>, signedAt: int, outLen: nat, now: int)
    requires CTexts(subject, claims) && '"' !in subject && |subject| <= 255
    requires INT64_MIN <= signedAt && signedAt + J.ttl <= INT64_MAX
    requires |PayloadText(subject, signedAt, signedAt + J.ttl, claims)| < MAX_PAYLOAD
    requires outLen > TokenSize(|PayloadText(subject, signedAt, signedAt + J.ttl, claims)|)
    ensures
      var token := J.Sign(subject, claims, signedAt, outLen);
      var exp := signedAt + J.ttl;
      var ok := exp <= 0 || now <= exp;
      token.Token? && J.Verify(token.text, now) == (ok, Payload(subject, signedAt, exp, ok))
  {
    hide Read, Signer.TokenOf, Signer.Verify, PayloadText;
    var exp := signedAt + J.ttl;
    var payload := PayloadText(subject, signedAt, exp, claims);
    PlainPayload(subject, signedAt, exp, claims);
    PayloadNotEmpty(subject, signedAt, exp, claims);
    TokenLength(J, payload);
    VerifiesToken(J, payload, now);
    ReadsPayload(subject, signedAt, exp, claims);
  }

  lemma PayloadNotEmpty(subject: string, iat: int, exp: int, claims: seq<Claim>)
    ensures PayloadText(subject, iat, exp, claims) != []
  {
  }

  /** The subject can also be read without the secret. */
  lemma SignThenGetSubject(J: Signer, subject: string, claims: seq<Claim>, signedAt: int, outLen: nat, n: nat)
    requires CTexts(subject, claims) && '"' !in subject && |subject| <= 255
    requires INT64_MIN <= signedAt && signedAt + J.ttl <= INT64_MAX
    requires |PayloadText(subject, signedAt, signedAt + J.ttl, claims)| < MAX_PAYLOAD
    requires outLen > TokenSize(|PayloadText(subject, signedAt, signedAt + J.ttl, claims)|) && n > |subject|
    ensures
      var token := J.Sign(subject, claims, signedAt, outLen);
      token.Token? && GetSubject(token.text, n) == Some(subject)
  {
    hide Encode, Decode, SubjectOf, Signer.TokenOf, PayloadText, Split, CString, Read, EncodedHeader;
    var exp := signedAt + J.ttl;
    var payload := PayloadText(subject, signedAt, exp, claims);
    PlainPayload(subject, signedAt, exp, claims);
    PayloadNotEmpty(subject, signedAt, exp, claims);
    TokenLength(J, payload);
    TokenParts(J, payload);
    RoundTrip(payload);
    CStringOf(payload);
    assert payload[..|payload|] == payload;
    ReadsPayload(subject, signedAt, exp, claims);
  }

  lemma PartsAreShorter(token: string)
    ensures Split(token).Some? ==> |Split(token).value.1| < |token|
  {
  }

  /** On every token that is verified, reading the subject without the secret gives the
      same subject, or none where verification left it empty. */
  lemma SubjectsAgree(J: Signer, token: string, now: int)
    requires |token| < MAX_TOKEN && J.Verify(token, now).0
    ensures
      var s := GetSubject(token, 256);
      J.Verify(token, now).1.subject == if s.Some? then s.value else ""
  {
    hide Encode, Decode, SubjectOf, NumberAt, CString, Split;
    PartsAreShorter(token);
  }

  /** The subject comes back whole exactly when it has no quote and at most 255 characters. */
  lemma SubjectKept(subject: string, iat: int, exp: int, claims: seq<Claim>)
    ensures Read(PayloadText(subject, iat, exp, claims)).subject == subject <==> '"' !in subject && |subject| <= 255
  {
    hide IntText, ClaimsText, NumberAt;
    var tail := BEFORE_IAT + (IntText(iat) + (BEFORE_EXP + (IntText(exp) + (ClaimsText(claims) + "}"))));
    var rest := subject + tail;
    SubjectFirst(BEFORE_SUB + rest, rest);
    assert rest[|subject|] == '"';
    var e := StrChr(rest, '"').value;
    assert '"' in subject ==> exists k :: 0 <= k < |subject| && rest[k] == '"' by {
      if '"' in subject {
        var k :| 0 <= k < |subject| && subject[k] == '"';
        assert rest[k] == '"';
      }
    }
    if '"' !in subject {
      assert e == |subject|;
      assert rest[..e] == subject;
    }
  }

  /** What is read as the two times of a payload with any subject: their own, exactly if the
      subject, with the quote in front of it, does not hold the key, or holds a text behind
      it that is read as the same number. */
  lemma TimesKept(subject: string, iat: int, exp: int, claims: seq<Claim>)
    requires CTexts(subject, claims)
    requires INT64_MIN <= iat <= INT64_MAX && INT64_MIN <= exp <= INT64_MAX
    ensures
      var tail := TailOf(iat, exp, ClaimsText(claims) + "}");
      var q, p := "\"" + subject, Read(PayloadText(subject, iat, exp, claims));
      var i, e := StrStr(q, IAT, 0), StrStr(q, EXP, 0);
      && (p.issuedAt == iat <==> i.None? || Atol(q[i.value + |IAT|..] + tail) == iat)
      && (p.expiresAt == exp <==> e.None? || Atol(q[e.value + |EXP|..] + tail) == exp)
  {
    hide IntText, ClaimsText, SubjectOf, NumberAt, IsDigit, CText, StrStr, Atol;
    ClaimsEnd(claims);
    NumbersRead(subject, iat, exp, ClaimsText(claims) + "}");
  }

  lemma CutParts(a: string, b: string, c: string, n: nat)
    requires '.' !in a && '.' !in b && '.' !in c && n <= |a| + |b| + |c| + 2
    ensures
      var parts := Split((a + "." + b + "." + c)[..n]);
      parts.Some? ==> parts.value.0 == a && parts.value.1 == b && |parts.value.2| + |a| + |b| + 2 == n
  {
    var t := a + "." + b + "." + c;
    if n >= |a| + |b| + 2 {
      var c1 := c[..n - |a| - |b| - 2];
      assert t[..n] == a + "." + b + "." + c1;
      SplitParts(a, b, c1);
    } else if n > |a| {
      var b1 := (b + ".")[..n - |a| - 1];
      assert t[..n] == a + ['.'] + b1;
      assert '.' !in b1;
      FirstChar(a, '.', b1);
      assert t[..n][|a| + 1..] == b1;
    } else {
      assert t[..n] == a[..n];
    }
  }

  /** A token that was cut off by a short buffer is never verified, at any time. */
  lemma TruncatedFails(J: Signer, subject: string, claims: seq<Claim>, signedAt: int, outLen: nat, now: int)
    requires CTexts(subject, claims)
    requires |PayloadText(subject, signedAt, signedAt + J.ttl, claims)| < MAX_PAYLOAD
    requires 64 <= outLen <= TokenSize(|PayloadText(subject, signedAt, signedAt + J.ttl, claims)|)
    ensures
      var token := J.Sign(subject, claims, signedAt, outLen);
      token.Token? && !J.Verify(token.text, now).0
  {
    hide Encode, EncodedHeader, Split, PayloadText, Read, CString, TokenSize;
    var payload := PayloadText(subject, signedAt, signedAt + J.ttl, claims);
    PlainPayload(subject, signedAt, signedAt + J.ttl, claims);
    TokenLength(J, payload);
    var a, b := EncodedHeader(), Encode(payload);
    var c := Encode(J.mac(J.secret, a + "." + b));
    HeaderClean();
    EncodedClean(payload);
    EncodedClean(J.mac(J.secret, a + "." + b));
    CutParts(a, b, c, outLen - 1);
  }

  // ----- what is accepted -----

  /** `token` is `h`, `p` and the signature of these two. */
  predicate Genuine(J: Signer, token: string, h: string, p: string) {
    '.' !in h && '.' !in p && token == h + "." + p + "." + Encode(J.mac(J.secret, h + "." + p))
  }

  /** The payload part has a content, of which at most 1023 bytes are looked at, and its
      time is not over; without one, or with one up to zero, it is never over. */
  predicate Alive(p: string, now: int) {
    var raw := Decode(p);
    var exp := NumberAt(CString(if |raw| <= 1023 then raw else raw[..1023]), EXP);
    raw != [] && (exp <= 0 || now <= exp)
  }

  lemma CutBack(s: string, c: char)
    ensures StrChr(s, c).Some? ==>
      var i := StrChr(s, c).value;
      s == s[..i] + [c] + s[i + 1..] && c !in s[..i]
  {
  }

  lemma SplitBack(token: string)
    ensures Split(token).Some? ==>
      var (a, b, c) := Split(token).value;
      token == a + "." + b + "." + c && '.' !in a && '.' !in b
  {
    hide StrChr;
    CutBack(token, '.');
    if StrChr(token, '.').Some? {
      var i := StrChr(token, '.').value;
      CutBack(token[i + 1..], '.');
      if Split(token).Some? {
        var (a, b, c) := Split(token).value;
        assert a + "." + (b + "." + c) == a + "." + b + "." + c;
      }
    }
  }

  ghost predicate Acceptable(J: Signer, t: string, now: int) {
    exists h, p :: Genuine(J, t, h, p) && Alive(p, now)
  }

  /** A token, as far as its buffer holds it, is accepted if and only if it carries its own
      signature and is not expired. */
  lemma AcceptedIff(J: Signer, token: string, now: int)
    ensures J.Verify(token, now).0 <==> Acceptable(J, Clip(token, MAX_TOKEN - 1), now)
  {
    hide Encode, Split, Genuine, Alive;
    var t := Clip(token, MAX_TOKEN - 1);
    SplitBack(t);
    if Split(t).Some? {
      var (h, p, c) := Split(t).value;
      VerifiesParts(J, token, now, h, p, c);
      if J.Verify(token, now).0 {
        assert Genuine(J, t, h, p) by { GenuineParts(J, t, h, p, c); }
      }
    }
    if h, p :| Genuine(J, t, h, p) && Alive(p, now) {
      var c := Encode(J.mac(J.secret, h + "." + p));
      GenuineParts(J, t, h, p, c);
      SplitParts(h, p, c);
      VerifiesParts(J, token, now, h, p, c);
    }
  }

  lemma GenuineParts(J: Signer, t: string, h: string, p: string, c: string)
    requires c == Encode(J.mac(J.secret, h + "." + p))
    ensures Genuine(J, t, h, p) <==> '.' !in h && '.' !in p && t == h + "." + p + "." + c
  {
  }

  lemma VerifiesParts(J: Signer, token: string, now: int, h: string, p: string, c: string)
    requires Split(Clip(token, MAX_TOKEN - 1)) == Some((h, p, c))
    ensures J.Verify(token, now).0 <==> c == Encode(J.mac(J.secret, h + "." + p)) && Alive(p, now)
  {
    hide Encode, Decode, CString, StrStr, Atol, SubjectOf, Split;
    var raw := Decode(p);
    assert raw[..|raw|] == raw;
  }

  /** Behind its second dot an accepted token cannot be changed, at any time. */
  lemma SignatureForced(J: Signer, h: string, p: string, c: string, d: string, now: int, later: int)
    requires '.' !in h && '.' !in p && |h + "." + p + "." + c| < MAX_TOKEN && |h + "." + p + "." + d| < MAX_TOKEN
    requires J.Verify(h + "." + p + "." + c, now).0 && c != d
    ensures J.Verify(h + "." + p + "." + d, later) == (false, NO_PAYLOAD)
  {
    hide Encode, Decode, CString, Read, Split;
    SplitParts(h, p, c);
    SplitParts(h, p, d);
  }

  /** Each claim stands in the payload as it was given, in order, behind the times. */
  lemma {:induction false} ClaimsStand(claims: seq<Claim>, i: nat)
    requires i < |claims|
    ensures ClaimsText(claims) ==
      ClaimsText(claims[..i]) + (",\"" + claims[i].key + "\":\"" + claims[i].value + "\"" + ClaimsText(claims[i + 1..]))
  {
    if i > 0 {
      ClaimsStand(claims[1..], i - 1);
      assert claims[1..][i - 1] == claims[i] && claims[1..][i..] == claims[i + 1..];
      assert claims[..i][1..] == claims[1..][..i - 1] && claims[..i][0] == claims[0];
      var first := ",\"" + claims[0].key + "\":\"" + claims[0].value + "\"";
      assert ClaimsText(claims) == first + ClaimsText(claims[1..]);
      assert ClaimsText(claims[..i]) == first + ClaimsText(claims[1..][..i - 1]);
    } else {
      assert claims[..0] == [];
    }
  }

  lemma ClaimInPayload(subject: string, iat: int, exp: int, claims: seq<Claim>, i: nat) returns (at: nat)
    requires i < |claims|
    ensures
      var text := PayloadText(subject, iat, exp, claims);
      at <= |text| && ",\"" + claims[i].key + "\":\"" + claims[i].value + "\"" <= text[at..]
  {
    hide IntText, ClaimsText;
    ClaimsStand(claims, i);
    var text := PayloadText(subject, iat, exp, claims);
    var before := BEFORE_SUB + (subject + (BEFORE_IAT + (IntText(iat) + (BEFORE_EXP + IntText(exp)))));
    assert text == before + (ClaimsText(claims) + "}");
    at := |before| + |ClaimsText(claims[..i])|;
  }

  /** The first part of every signed token names the algorithm. */
  lemma HeaderText()
    ensures Decode(EncodedHeader()) == "{\"alg\":\"HS256\",\"typ\":\"JWT\"}"
  {
    hide Encode, Decode;
    RoundTrip(HEADER);
  }
}
