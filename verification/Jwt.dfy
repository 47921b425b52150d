/** Signed tokens (src/runtime/jwt.c): the compact serialization of section 3.1 of RFC
    7515, with a signature that may be any function of secret and input. */
module Jwt {
  import opened Wrappers
  import opened Decimal
  import opened Base64

  type Hash = h: seq<Octet> | |h| == 32 witness seq(32, i => 'A')

  const MAX_PAYLOAD: nat := 1024
  const MAX_TOKEN: nat := 2048
  const HEADER: seq<Octet> := "{\"alg\":\"HS256\",\"typ\":\"JWT\"}"

  function EncodedHeader(): string {
    Encode(HEADER)
  }

  datatype Claim = Claim(key: string, value: string)

  datatype Payload = Payload(subject: string, issuedAt: int, expiresAt: int, valid: bool)

  const NO_PAYLOAD: Payload := Payload("", 0, 0, false)

  /** `Overrun`: the payload does not fit its buffer. */
  datatype Signed = Token(text: string) | Refused | Overrun

  predicate Octets(s: string) {
    forall i :: 0 <= i < |s| ==> (s[i] as int) < 256
  }

  /** A C string of bytes. */
  predicate CText(s: string) {
    Octets(s) && '\0' !in s
  }

  // ----- string functions of the C library -----

  /** `strchr` */
  function StrChr(s: string, c: char): (r: Option<nat>)
    ensures r.Some? ==> r.value < |s| && s[r.value] == c && c !in s[..r.value]
    ensures r.None? ==> c !in s
  {
    if s == [] then None
    else if s[0] == c then Some(0)
    else
      var r := StrChr(s[1..], c);
      if r.None? then None
      else
        assert s[..r.value + 1] == [s[0]] + s[1..][..r.value];
        Some(r.value + 1)
  }

  predicate Occurs(s: string, pattern: string, i: nat) {
    i + |pattern| <= |s| && s[i..i + |pattern|] == pattern
  }

  /** `strstr`, from position `from` on. */
  function StrStr(s: string, pattern: string, from: nat): (r: Option<nat>)
    requires from <= |s|
    ensures r.Some? ==> from <= r.value && r.value + |pattern| <= |s| && Occurs(s, pattern, r.value)
    ensures forall i :: from <= i < (if r.Some? then r.value else |s|) ==> !Occurs(s, pattern, i)
    decreases |s| - from
  {
    if Occurs(s, pattern, from) then Some(from)
    else if from == |s| then None
    else StrStr(s, pattern, from + 1)
  }

  /** What a C function sees of a buffer: everything before the first terminator. */
  function CString(s: string): string {
    match StrChr(s, '\0')
    case None => s
    case Some(i) => s[..i]
  }

  predicate IsSpace(c: char) {
    c == ' ' || '\t' <= c <= '\r'
  }

  function SkipSpace(s: string): string {
    if s != [] && IsSpace(s[0]) then SkipSpace(s[1..]) else s
  }

  function Atol(s: string): int {
    ParseInt(SkipSpace(s))
  }

  function Clip(s: string, max: nat): string {
    if |s| <= max then s else s[..max]
  }

  function FirstBytes(s: seq<Octet>, max: nat): seq<Octet> {
    s[..Least(|s|, max)]
  }

  // ----- signing -----

  function ClaimsText(claims: seq<Claim>): string {
    if claims == [] then ""
    else ",\"" + claims[0].key + "\":\"" + claims[0].value + "\"" + ClaimsText(claims[1..])
  }

  /** What stands before, between and behind the three standard entries. */
  const BEFORE_SUB: string := "{\"sub\":\""
  const BEFORE_IAT: string := "\",\"iat\":"
  const BEFORE_EXP: string := ",\"exp\":"

  function PayloadText(subject: string, iat: int, exp: int, claims: seq<Claim>): string {
    BEFORE_SUB + (subject + (BEFORE_IAT + (IntText(iat) + (BEFORE_EXP + (IntText(exp) + (ClaimsText(claims) + "}"))))))
  }

  /** Subject and claims are C strings. */
  predicate CTexts(subject: string, claims: seq<Claim>) {
    CText(subject) && forall i :: 0 <= i < |claims| ==> CText(claims[i].key) && CText(claims[i].value)
  }

  /** The secret, the lifetime of tokens and the signature function. */
  datatype Signer = Signer(secret: string, ttl: nat, mac: (string, string) -> Hash) {

    function TokenOf(payload: string): string
      requires Octets(payload)
    {
      var input := EncodedHeader() + "." + Encode(payload);
      input + "." + Encode(mac(secret, input))
    }

    /** sky_jwt_sign_claims */
    function Sign(subject: string, claims: seq<Claim>, now: int, outLen: nat): Signed
      requires CTexts(subject, claims)
    {
      if outLen < 64 then Refused
      else
        PlainPayload(subject, now, now + ttl, claims);
        var payload := PayloadText(subject, now, now + ttl, claims);
        if |payload| >= MAX_PAYLOAD then Overrun else Token(Clip(TokenOf(payload), outLen - 1))
    }

    /** sky_jwt_verify: the verdict and what is written to the caller's structure. */
    function Verify(token: string, now: int): (bool, Payload) {
      match Split(Clip(token, MAX_TOKEN - 1))
      case None => (false, NO_PAYLOAD)
      case Some(parts) =>
        if parts.2 != Encode(mac(secret, parts.0 + "." + parts.1)) then (false, NO_PAYLOAD)
        else
          var raw := FirstBytes(Decode(parts.1), MAX_PAYLOAD - 1);
          if raw == [] then (false, NO_PAYLOAD)
          else
            var p := Read(CString(raw));
            var ok := p.expiresAt <= 0 || now <= p.expiresAt;
            (ok, p.(valid := ok))
    }
  }

  /** The texts before the first dot, between it and the second, and behind. */
  function Split(token: string): Option<(string, string, string)> {
    match StrChr(token, '.')
    case None => None
    case Some(i) =>
      var rest := token[i + 1..];
      match StrChr(rest, '.')
      case None => None
      case Some(j) => Some((token[..i], rest[..j], rest[j + 1..]))
  }

  const SUB: string := "\"sub\":\""
  const IAT: string := "\"iat\":"
  const EXP: string := "\"exp\":"

  /** The text from behind the first `"sub":"` to the next quote. */
  function SubjectOf(json: string): Option<string> {
    match StrStr(json, SUB, 0)
    case None => None
    case Some(i) =>
      var rest := json[i + 7..];
      match StrChr(rest, '"')
      case None => None
      case Some(e) => Some(rest[..e])
  }

  /** The number behind the first `key`. */
  function NumberAt(json: string, key: string): int {
    match StrStr(json, key, 0)
    case None => 0
    case Some(i) => Atol(json[i + |key|..])
  }

  function Read(json: string): Payload {
    var s := SubjectOf(json);
    Payload(if s.None? then "" else Clip(s.value, 255), NumberAt(json, IAT), NumberAt(json, EXP), false)
  }

  /** sky_jwt_get_subject */
  function GetSubject(token: string, outLen: nat): Option<string>
    requires outLen > 0
  {
    match Split(token)
    case None => None
    case Some(parts) =>
      if |parts.1| >= 2048 then None
      else
        var raw := FirstBytes(Decode(parts.1), 1023);
        if raw == [] then None
        else
          var s := SubjectOf(CString(raw));
          if s.None? then None else Some(Clip(s.value, outLen - 1))
  }

  // ----- characters of the payload -----

  lemma {:induction false} NatTextOctets(n: nat)
    ensures CText(NatText(n)) && '"' !in NatText(n)
  {
  }

  lemma IntTextOctets(n: int)
    ensures CText(IntText(n)) && '"' !in IntText(n)
    ensures IntText(n) != [] && !IsSpace(IntText(n)[0])
  {
    NatTextOctets(if n < 0 then -n else n);
  }

  lemma {:induction false} ClaimsOctets(claims: seq<Claim>)
    requires forall i :: 0 <= i < |claims| ==> CText(claims[i].key) && CText(claims[i].value)
    ensures CText(ClaimsText(claims))
    ensures ClaimsText(claims) != [] ==> ClaimsText(claims)[0] == ','
  {
    if claims != [] {
      ClaimsOctets(claims[1..]);
    }
  }

  lemma PlainPayload(subject: string, iat: int, exp: int, claims: seq<Claim>)
    requires CTexts(subject, claims)
    ensures CText(PayloadText(subject, iat, exp, claims))
  {
    hide IntText;
    IntTextOctets(iat);
    IntTextOctets(exp);
    ClaimsOctets(claims);
  }

  lemma CStringOf(s: string)
    requires '\0' !in s
    ensures CString(s) == s
  {
  }

  // ----- first occurrences -----

  lemma FirstOccurrence(s: string, pattern: string, k: nat)
    requires Occurs(s, pattern, k) && forall i :: 0 <= i < k ==> !Occurs(s, pattern, i)
    ensures k <= |s| && StrStr(s, pattern, 0) == Some(k)
  {
  }

  lemma FirstChar(a: string, c: char, b: string)
    requires c !in a
    ensures StrChr(a + [c] + b, c) == Some(|a|)
  {
    var s := a + [c] + b;
    assert s[|a|] == c;
  }
}
