/** Signing and verifying as src/runtime/jwt.c does them: buffers, loops and a copy of the
    token that is cut apart in place. Each method computes what Jwt says. */
module JwtContext {
  import opened Wrappers
  import opened Decimal
  import opened Base64
  import opened Jwt

  const SECRET_LEN: nat := 256

  class SkyJWTContext {
    var secret: string
    var ttl: nat
    const mac: (string, string) -> Hash

    /** sky_jwt_init */
    constructor (secret: Option<string>, ttl: nat, mac: (string, string) -> Hash)
      ensures this.mac == mac && this.ttl == (if ttl > 0 then ttl else 3600)
      ensures this.secret ==
        (if secret.Some? then Clip(secret.value, SECRET_LEN - 1) else "sky-default-secret-change-me")
    {
      this.secret := if secret.Some? then Clip(secret.value, SECRET_LEN - 1) else "sky-default-secret-change-me";
      this.ttl := if ttl > 0 then ttl else 3600;
      this.mac := mac;
    }

    ghost function Signer(): Signer
      reads this
    {
      Jwt.Signer(secret, ttl, mac)
    }

    /** base64url_encode into a buffer of `size` characters, which is large enough. */
    static method EncodeText(s: seq<Octet>, size: nat) returns (text: string)
      requires |s| / 3 * 4 + 4 < size
      ensures text == Encode(s)
    {
      var buffer := new char[size];
      var n := EncodeInto(s, buffer);
      text := buffer[..n];
      assert s[..|s|] == s;
    }

    /** sky_jwt_sign_claims; `now` is the clock. */
    method SignClaims(subject: string, claims: seq<Claim>, now: int, outLen: nat) returns (token: Signed)
      requires CTexts(subject, claims)
      ensures token == Signer().Sign(subject, claims, now, outLen)
    {
      hide Encode, EncodedHeader, PayloadText;
      if outLen < 64 {
        return Refused;
      }
      var payload := BuildPayload(subject, claims, now, now + ttl);
      if |payload| >= MAX_PAYLOAD {
        return Overrun;
      }
      PlainPayload(subject, now, now + ttl, claims);
      assert |payload| / 3 * 4 + 4 < 2048;
      var header64 := EncodeHeader();
      var payload64 := EncodeText(payload, 2048);
      var input := header64 + "." + payload64;
      var signature64 := EncodeText(mac(secret, input), 256);
      token := Token(Clip(input + "." + signature64, outLen - 1));
    }

    static method EncodeHeader() returns (text: string)
      ensures text == EncodedHeader()
    {
      hide Encode;
      text := EncodeText(HEADER, 512);
    }

    /** The `snprintf` of the standard entries and one more for each claim. */
    static method BuildPayload(subject: string, claims: seq<Claim>, iat: int, exp: int) returns (payload: string)
      ensures payload == PayloadText(subject, iat, exp, claims)
    {
      hide IntText;
      payload := BEFORE_SUB + subject + BEFORE_IAT + IntText(iat) + BEFORE_EXP + IntText(exp);
      ghost var start := payload;
      for i := 0 to |claims|
        invariant payload + ClaimsText(claims[i..]) == start + ClaimsText(claims)
      {
        var c := claims[i];
        ClaimsStep(claims, i);
        ghost var one, rest := ",\"" + c.key + "\":\"" + c.value + "\"", ClaimsText(claims[i + 1..]);
        assert payload + (one + rest) == payload + one + rest;
        payload := payload + (",\"" + c.key + "\":\"" + c.value + "\"");
      }
      assert ClaimsText(claims[|claims|..]) == "";
      assert payload == start + ClaimsText(claims);
      payload := payload + "}";
      PayloadJoined(subject, IntText(iat), IntText(exp), ClaimsText(claims));
    }

    static lemma ClaimsStep(claims: seq<Claim>, i: nat)
      requires i < |claims|
      ensures ClaimsText(claims[i..]) ==
        ",\"" + claims[i].key + "\":\"" + claims[i].value + "\"" + ClaimsText(claims[i + 1..])
    {
      assert claims[i..][1..] == claims[i + 1..];
    }

    static lemma PayloadJoined(s: string, n1: string, n2: string, claims: string)
      ensures BEFORE_SUB + s + BEFORE_IAT + n1 + BEFORE_EXP + n2 + claims + "}"
        == BEFORE_SUB + (s + (BEFORE_IAT + (n1 + (BEFORE_EXP + (n2 + (claims + "}"))))))
    {
    }

    /** `strchr` on the buffer, from `from` to the terminator. */
    static method FindChar(buffer: array<char>, from: nat, ghost text: string, c: char) returns (r: Option<nat>)
      requires c != '\0' && '\0' !in text && from + |text| < buffer.Length
      requires buffer[from..from + |text|] == text && buffer[from + |text|] == '\0'
      ensures r == StrChr(text, c)
    {
      var i := 0;
      FromStart(text, c);
      assert text[0..] == text;
      while buffer[from + i] != '\0'
        invariant i <= |text|
        invariant StrChr(text, c) == Later(StrChr(text[i..], c), i)
        decreases |text| - i
      {
        assert buffer[from + i] == buffer[from..from + |text|][i];
        assert text[i..][1..] == text[i + 1..];
        if buffer[from + i] == c {
          return Some(i);
        }
        i := i + 1;
      }
      AtTerminator(buffer, from, text, i);
      return None;
    }

    static lemma AtTerminator(buffer: array<char>, from: nat, text: string, i: nat)
      requires from + |text| < buffer.Length && i <= |text| && '\0' !in text
      requires buffer[from..from + |text|] == text && buffer[from + i] == '\0'
      ensures text[i..] == []
    {
      forall k | 0 <= k < |text| ensures buffer[from + k] == text[k] {
      }
    }

    static function Later(r: Option<nat>, i: nat): Option<nat> {
      if r.None? then None else Some(r.value + i)
    }

    static lemma FromStart(text: string, c: char)
      ensures StrChr(text, c) == Later(StrChr(text, c), 0)
    {
    }

    /** `strstr` */
    static method FindText(s: string, pattern: string) returns (r: Option<nat>)
      ensures r == StrStr(s, pattern, 0)
    {
      for i := 0 to |s| + 1
        invariant i <= |s| ==> StrStr(s, pattern, 0) == StrStr(s, pattern, i)
        invariant i == |s| + 1 ==> StrStr(s, pattern, 0) == None
      {
        if i + |pattern| <= |s| && s[i..i + |pattern|] == pattern {
          return Some(i);
        }
      }
      return None;
    }

    /** The copy of the token with the dots overwritten by terminators. */
    static method CutToken(token: string) returns (parts: Option<(string, string, string)>)
      requires '\0' !in token
      ensures parts == Split(Clip(token, MAX_TOKEN - 1))
    {
      hide StrChr;
      ghost var text := Clip(token, MAX_TOKEN - 1);
      var copy := CopyToken(token);
      var dot1 := FindChar(copy, 0, text, '.');
      if dot1.None? {
        return None;
      }
      var i := dot1.value;
      FoundBelow(text, '.');
      ghost var rest := text[i + 1..];
      copy[i] := '\0';
      assert copy[i + 1..i + 1 + |rest|] == rest;
      var dot2 := FindChar(copy, i + 1, rest, '.');
      if dot2.None? {
        return None;
      }
      var j := dot2.value;
      FoundBelow(rest, '.');
      copy[i + 1 + j] := '\0';
      var n := |token|;
      if n > MAX_TOKEN - 1 {
        n := MAX_TOKEN - 1;
      }
      assert copy[..i] == text[..i];
      assert copy[i + 1..i + 1 + j] == rest[..j];
      assert copy[i + 1 + j + 1..n] == rest[j + 1..];
      parts := Some((copy[..i], copy[i + 1..i + 1 + j], copy[i + 1 + j + 1..n]));
    }

    static lemma FoundBelow(s: string, c: char)
      ensures StrChr(s, c).Some? ==> StrChr(s, c).value < |s|
    {
    }

    /** `strncpy` into the buffer, which is terminated. */
    static method CopyToken(token: string) returns (copy: array<char>)
      requires '\0' !in token
      ensures fresh(copy) && copy.Length == MAX_TOKEN
      ensures copy[..|Clip(token, MAX_TOKEN - 1)|] == Clip(token, MAX_TOKEN - 1) &&
        copy[|Clip(token, MAX_TOKEN - 1)|] == '\0'
    {
      copy := new char[MAX_TOKEN](i => '\0');
      var n := Least(|token|, MAX_TOKEN - 1);
      for i := 0 to n
        invariant copy[..i] == token[..i]
        invariant forall k :: n <= k < copy.Length ==> copy[k] == '\0'
      {
        copy[i] := token[i];
      }
    }

    /** base64url_decode into a buffer that keeps a place for the terminator. */
    static method DecodeText(s: string, size: nat) returns (raw: seq<Octet>)
      ensures raw == FirstBytes(Decode(s), size)
    {
      var buffer := new Octet[size + 1](i => 'A');
      var n := DecodeInto(s, buffer, size);
      raw := buffer[..n];
    }

    static method ReadSubject(json: string) returns (subject: Option<string>)
      ensures subject == SubjectOf(json)
    {
      hide StrChr;
      var at := FindText(json, SUB);
      if at.None? {
        return None;
      }
      var rest := json[at.value + 7..];
      var end := StrChr(rest, '"');
      FoundBelow(rest, '"');
      subject := if end.None? then None else Some(rest[..end.value]);
    }

    static method ReadNumber(json: string, key: string) returns (n: int)
      ensures n == NumberAt(json, key)
    {
      var at := FindText(json, key);
      n := if at.None? then 0 else Atol(json[at.value + |key|..]);
    }

    /** sky_jwt_verify; `now` is the clock. */
    method Verify(token: string, now: int) returns (ok: bool, payload: Payload)
      requires '\0' !in token
      ensures (ok, payload) == Signer().Verify(token, now)
    {
      hide Encode, Decode, Split, SubjectOf, NumberAt, CString;
      payload := NO_PAYLOAD;
      var parts := CutToken(token);
      if parts.None? {
        return false, payload;
      }
      var expected := EncodeText(mac(secret, parts.value.0 + "." + parts.value.1), 256);
      if parts.value.2 != expected {
        return false, payload;
      }
      var raw := DecodeText(parts.value.1, MAX_PAYLOAD - 1);
      if raw == [] {
        return false, payload;
      }
      var json := CString(raw);
      var subject := ReadSubject(json);
      if subject.Some? {
        payload := payload.(subject := Clip(subject.value, 255));
      }
      var iat := ReadNumber(json, IAT);
      var exp := ReadNumber(json, EXP);
      payload := payload.(issuedAt := iat, expiresAt := exp);
      if payload.expiresAt > 0 && now > payload.expiresAt {
        return false, payload;
      }
      return true, payload.(valid := true);
    }
  }
}
