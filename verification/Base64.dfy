/** base64url without padding (section 5 of RFC 4648) as src/runtime/jwt.c does it, with
    its bounded output buffers. */
module Base64 {

  /** A `uint8_t`, kept as a character. */
  type Octet = c: char | (c as int) < 256 witness 'A'

  /** `b64_table`: A to Z, a to z, 0 to 9, + and /. */
  function TableChar(v: nat): char
    requires v < 64
  {
    if v < 26 then (v + 65) as char
    else if v < 52 then (v + 71) as char
    else if v < 62 then (v - 4) as char
    else if v == 62 then '+'
    else '/'
  }

  function UrlSafe(c: char): char {
    if c == '+' then '-' else if c == '/' then '_' else c
  }

  function Standard(c: char): char {
    if c == '-' then '+' else if c == '_' then '/' else c
  }

  /** The six bits `v` in base64url. */
  function Symbol(v: nat): char
    requires v < 64
  {
    UrlSafe(TableChar(v))
  }

  /** The decoding table `d`; characters without an entry count as 0. */
  function Value(c: char): (v: nat)
    ensures v < 64
  {
    if 'A' <= c <= 'Z' then (c as int) - 65
    else if 'a' <= c <= 'z' then (c as int) - 71
    else if '0' <= c <= '9' then (c as int) + 4
    else if c == '+' then 62
    else if c == '/' then 63
    else 0
  }

  lemma SymbolValue(v: nat)
    requires v < 64
    ensures Value(Standard(Symbol(v))) == v && Standard(Symbol(v)) != '='
    ensures Symbol(v) != '.' && Symbol(v) != '\0' && (Symbol(v) as int) < 256
  {
  }

  function Byte(n: nat): Octet {
    (n % 256) as char
  }

  // ----- what is computed -----

  function Three(a: Octet, b: Octet, c: Octet): (s: string)
    ensures |s| == 4
  {
    var x, y, z := a as int, b as int, c as int;
    [Symbol(x / 4), Symbol(x % 4 * 16 + y / 16), Symbol(y % 16 * 4 + z / 64), Symbol(z % 64)]
  }

  /** The one or two bytes that are left over. */
  function Tail(s: seq<Octet>): (t: string)
    requires |s| < 3
    ensures |t| == if s == [] then 0 else |s| + 1
  {
    if s == [] then []
    else
      var x := s[0] as int;
      if |s| == 1 then [Symbol(x / 4), Symbol(x % 4 * 16)]
      else
        var y := s[1] as int;
        [Symbol(x / 4), Symbol(x % 4 * 16 + y / 16), Symbol(y % 16 * 4)]
  }

  function Encode(s: seq<Octet>): (t: string)
    ensures |t| == |s| / 3 * 4 + if |s| % 3 == 0 then 0 else |s| % 3 + 1
  {
    if |s| < 3 then Tail(s) else Three(s[0], s[1], s[2]) + Encode(s[3..])
  }

  /** One group of four symbols, `=` for a missing one. */
  function Group(p: char, q: char, r: char, s: char): seq<Octet> {
    var a, b := Value(p), Value(q);
    var c, d := if r == '=' then 0 else Value(r), if s == '=' then 0 else Value(s);
    [Byte(a * 4 + b / 16)]
    + (if r == '=' then [] else [Byte(b * 16 + c / 4)])
    + (if s == '=' then [] else [Byte(c * 64 + d)])
  }

  /** Padding to a multiple of four. */
  function Padded(s: string): (t: string)
    ensures |t| % 4 == 0 && |s| <= |t| < |s| + 4
  {
    var pad := (4 - |s| % 4) % 4;
    s + seq(pad, i => '=')
  }

  function Standardized(s: string): (t: string)
    ensures |t| == |s|
  {
    seq(|s|, i requires 0 <= i < |s| => Standard(s[i]))
  }

  function Groups(s: string): seq<Octet>
    requires |s| % 4 == 0
  {
    if s == [] then [] else Group(s[0], s[1], s[2], s[3]) + Groups(s[4..])
  }

  function Decode(s: string): seq<Octet> {
    Groups(Padded(Standardized(s)))
  }

  /** How much of `n` bytes the encoder gets to with room for `max` characters: whole
      groups while four more fit before the terminator, then the rest if it fits. */
  function Encodable(n: nat, max: nat): (k: nat)
    ensures k <= n && (k < n ==> k % 3 == 0)
  {
    var m := n / 3;
    if 4 * m + 4 < max || (n % 3 == 0 && 4 * m < max) then n
    else if 4 * m < max then 3 * m
    else if max == 0 then 0
    else (max - 1) / 4 * 3
  }

  // ----- round trip -----

  lemma FirstByte(x: nat, y: nat)
    requires x < 256 && y < 256
    ensures x / 4 * 4 + (x % 4 * 16 + y / 16) / 16 == x
  {
    assert y / 16 < 16;
    assert (x % 4 * 16 + y / 16) / 16 == x % 4;
  }

  lemma SecondByte(x: nat, y: nat, z: nat)
    requires x < 256 && y < 256 && z < 256
    ensures ((x % 4 * 16 + y / 16) * 16 + (y % 16 * 4 + z / 64) / 4) % 256 == y
  {
    var h := x % 4;
    assert (y % 16 * 4 + z / 64) / 4 == y % 16;
    assert (h * 16 + y / 16) * 16 + y % 16 == h * 256 + y;
  }

  lemma ThirdByte(y: nat, z: nat)
    requires y < 256 && z < 256
    ensures ((y % 16 * 4 + z / 64) * 64 + z % 64) % 256 == z
  {
    var h := y % 16;
    assert (h * 4 + z / 64) * 64 + z % 64 == h * 256 + z;
  }

  lemma ByteOf(c: Octet)
    ensures Byte(c as int) == c
  {
  }

  lemma ByteWraps(n: nat)
    ensures Byte(n) == Byte(n % 256)
  {
  }

  /** The bytes that a group of symbols stands for. */
  lemma GroupOf(v0: nat, v1: nat, v2: nat, v3: nat)
    requires v0 < 64 && v1 < 64 && v2 < 64 && v3 < 64
    ensures Group(Standard(Symbol(v0)), Standard(Symbol(v1)), Standard(Symbol(v2)), Standard(Symbol(v3)))
      == [Byte(v0 * 4 + v1 / 16), Byte(v1 * 16 + v2 / 4), Byte(v2 * 64 + v3)]
    ensures Group(Standard(Symbol(v0)), Standard(Symbol(v1)), Standard(Symbol(v2)), '=')
      == [Byte(v0 * 4 + v1 / 16), Byte(v1 * 16 + v2 / 4)]
    ensures Group(Standard(Symbol(v0)), Standard(Symbol(v1)), '=', '=') == [Byte(v0 * 4 + v1 / 16)]
  {
    hide Symbol, Value, Standard, Byte;
    SymbolValue(v0);
    SymbolValue(v1);
    SymbolValue(v2);
    SymbolValue(v3);
  }

  lemma GroupOfThree(a: Octet, b: Octet, c: Octet)
    ensures
      var t := Three(a, b, c);
      Group(Standard(t[0]), Standard(t[1]), Standard(t[2]), Standard(t[3])) == [a, b, c]
  {
    hide Symbol, Standard, Byte, Group;
    var x, y, z := a as int, b as int, c as int;
    var v1, v2 := x % 4 * 16 + y / 16, y % 16 * 4 + z / 64;
    GroupOf(x / 4, v1, v2, z % 64);
    FirstByte(x, y);
    SecondByte(x, y, z);
    ThirdByte(y, z);
    ByteWraps(v1 * 16 + v2 / 4);
    ByteWraps(v2 * 64 + z % 64);
    ByteOf(a);
    ByteOf(b);
    ByteOf(c);
  }

  lemma DecodeTail(p: char, q: char, r: char)
    ensures Decode([p, q]) == Group(Standard(p), Standard(q), '=', '=')
    ensures Decode([p, q, r]) == Group(Standard(p), Standard(q), Standard(r), '=')
  {
    hide Standard, Group;
    OneGroup(Standard(p), Standard(q), '=', '=');
    OneGroup(Standard(p), Standard(q), Standard(r), '=');
    assert Padded(Standardized([p, q])) == [Standard(p), Standard(q), '=', '='];
    assert Padded(Standardized([p, q, r])) == [Standard(p), Standard(q), Standard(r), '='];
  }

  lemma OneGroup(p: char, q: char, r: char, s: char)
    ensures Groups([p, q, r, s]) == Group(p, q, r, s)
  {
    hide Group;
    assert [p, q, r, s][4..] == [];
  }

  lemma OneLeft(a: Octet)
    ensures Decode(Tail([a])) == [a]
  {
    hide Symbol, Standard, Byte, Group, Decode;
    var x := a as int;
    ByteOf(a);
    FirstByte(x, 0);
    GroupOf(x / 4, x % 4 * 16, 0, 0);
    DecodeTail(Symbol(x / 4), Symbol(x % 4 * 16), '=');
  }

  lemma TwoLeft(a: Octet, b: Octet)
    ensures Decode(Tail([a, b])) == [a, b]
  {
    hide Symbol, Standard, Byte, Group, Decode;
    var x, y := a as int, b as int;
    var v1, v2 := x % 4 * 16 + y / 16, y % 16 * 4;
    ByteOf(a);
    ByteOf(b);
    FirstByte(x, y);
    SecondByte(x, y, 0);
    ByteWraps(v1 * 16 + v2 / 4);
    GroupOf(x / 4, v1, v2, 0);
    DecodeTail(Symbol(x / 4), Symbol(v1), Symbol(v2));
  }

  lemma TailDecodes(s: seq<Octet>)
    requires |s| < 3
    ensures Decode(Tail(s)) == s
  {
    if |s| == 1 {
      assert s == [s[0]];
      OneLeft(s[0]);
    } else if |s| == 2 {
      assert s == [s[0], s[1]];
      TwoLeft(s[0], s[1]);
    }
  }

  lemma DecodeFour(s: string, rest: string)
    requires |s| == 4
    ensures Decode(s + rest) == Group(Standard(s[0]), Standard(s[1]), Standard(s[2]), Standard(s[3])) + Decode(rest)
  {
    hide Group, Standard;
    var t := Padded(Standardized(s + rest));
    assert t[4..] == Padded(Standardized(rest));
  }

  /** Whatever is encoded is decoded to itself. */
  lemma {:induction false} RoundTrip(s: seq<Octet>)
    ensures Decode(Encode(s)) == s
  {
    hide Decode, Group;
    if |s| < 3 {
      TailDecodes(s);
    } else {
      var t := Three(s[0], s[1], s[2]);
      RoundTrip(s[3..]);
      DecodeFour(t, Encode(s[3..]));
      GroupOfThree(s[0], s[1], s[2]);
      assert s == [s[0], s[1], s[2]] + s[3..];
    }
  }

  function Least(a: nat, b: nat): nat {
    if a < b then a else b
  }

  /** What `base64url_encode` leaves in a buffer of `max` characters, without its terminator. */
  function Encoded(s: seq<Octet>, max: nat): string {
    Encode(s[..Encodable(|s|, max)])
  }

  /** What `base64url_decode` leaves in a buffer of `max` bytes. */
  function Decoded(t: string, max: nat): seq<Octet> {
    Decode(t)[..Least(|Decode(t)|, max)]
  }

  /** Encoded into a buffer of any size and decoded into another, bytes come back cut at the
      size of the second and at whole groups of three if the first was short; all of them
      exactly when both have room, the first for whole groups of four and the terminator. */
  lemma ShortRoundTrip(s: seq<Octet>, max: nat, room: nat)
    ensures |Encoded(s, max)| < max || (max == 0 && Encoded(s, max) == [])
    ensures
      var k := Encodable(|s|, max);
      Decoded(Encoded(s, max), room) == s[..Least(k, room)] && (k < |s| ==> k % 3 == 0)
    ensures Decoded(Encoded(s, max), room) == s <==> (s == [] || (|s| + 2) / 3 * 4 < max) && |s| <= room
  {
    hide Encode, Decode;
    var k := Encodable(|s|, max);
    RoundTrip(s[..k]);
    assert |Encode(s[..k])| == k / 3 * 4 + if k % 3 == 0 then 0 else k % 3 + 1;
    assert s[..|s|] == s;
    EncodableAll(|s|, max);
  }

  lemma EncodableAll(n: nat, max: nat)
    ensures Encodable(n, max) == n <==> n == 0 || (n + 2) / 3 * 4 < max
  {
  }

  // ----- the alphabet -----

  /** `c` stands for `v` in base64url (table 2 of RFC 4648): the capital letters, the small
      ones, the digits, `-` and `_`, in this order. */
  predicate StandsFor(c: char, v: nat) {
    || ('A' <= c <= 'Z' && v == c as int - 'A' as int)
    || ('a' <= c <= 'z' && v == c as int - 'a' as int + 26)
    || ('0' <= c <= '9' && v == c as int - '0' as int + 52)
    || (c == '-' && v == 62)
    || (c == '_' && v == 63)
  }

  lemma SymbolStands(v: nat)
    requires v < 64
    ensures forall c :: StandsFor(c, v) <==> c == Symbol(v)
  {
  }

  /** Three bytes are written as the four digits, to the base 64, of the number whose digits,
      to the base 256, they are. */
  lemma ThreeDigits(a: Octet, b: Octet, c: Octet) returns (v: seq<nat>)
    ensures |v| == 4 && forall k :: 0 <= k < 4 ==> v[k] < 64
    ensures forall k :: 0 <= k < 4 ==> StandsFor(Three(a, b, c)[k], v[k])
    ensures ((v[0] * 64 + v[1]) * 64 + v[2]) * 64 + v[3] == (a as int * 256 + b as int) * 256 + c as int
  {
    hide Symbol;
    var x, y, z := a as int, b as int, c as int;
    v := [x / 4, x % 4 * 16 + y / 16, y % 16 * 4 + z / 64, z % 64];
    SymbolStands(v[0]);
    SymbolStands(v[1]);
    SymbolStands(v[2]);
    SymbolStands(v[3]);
  }

  /** One or two bytes at the end are written as the first digits of the three bytes that
      they make with zeros. */
  lemma TailDigits(s: seq<Octet>)
    requires 1 <= |s| <= 2
    ensures Tail(s) == Three(s[0], if |s| == 2 then s[1] else 0 as char, 0 as char)[..|s| + 1]
  {
    hide Symbol;
    var t := Three(s[0], if |s| == 2 then s[1] else 0 as char, 0 as char);
    assert |s| == 1 ==> t[..2] == [t[0], t[1]];
    assert |s| == 2 ==> t[..3] == [t[0], t[1], t[2]];
  }

  predicate Letter(c: char) {
    'A' <= c <= 'Z' || 'a' <= c <= 'z' || '0' <= c <= '9' || c == '-' || c == '_'
  }

  /** Every character of an encoding is a letter, a digit, `-` or `_`. */
  lemma {:induction false} EncodedLetters(s: seq<Octet>)
    ensures forall i :: 0 <= i < |Encode(s)| ==> Letter(Encode(s)[i])
  {
    hide Symbol, Letter;
    forall v: nat | v < 64 ensures Letter(Symbol(v)) {
      SymbolLetter(v);
    }
    if |s| >= 3 {
      EncodedLetters(s[3..]);
    }
  }

  lemma SymbolLetter(v: nat)
    requires v < 64
    ensures Letter(Symbol(v))
  {
  }

  /** All characters are symbols: no dot, no terminator. */
  lemma {:induction false} EncodedClean(s: seq<Octet>)
    ensures forall i :: 0 <= i < |Encode(s)| ==>
      Encode(s)[i] != '.' && Encode(s)[i] != '\0' && (Encode(s)[i] as int) < 256
  {
    hide Symbol;
    forall v: nat | v < 64 ensures Symbol(v) != '.' && Symbol(v) != '\0' && (Symbol(v) as int) < 256 {
      SymbolValue(v);
    }
    if |s| >= 3 {
      EncodedClean(s[3..]);
    }
  }

  // ----- the loops -----

  /** base64url_encode; `out` has its terminator behind the text. */
  method EncodeInto(input: seq<Octet>, out: array<char>) returns (length: nat)
    requires out.Length > 0
    modifies out
    ensures length < out.Length && out[length] == '\0'
    ensures out[..length] == Encoded(input, out.Length)
  {
    length := EncodeStandard(input, out);
    ghost var text := out[..length];
    for k := 0 to length
      invariant out[length] == '\0'
      invariant forall i :: 0 <= i < k ==> out[i] == UrlSafe(text[i])
      invariant forall i :: k <= i < length ==> out[i] == text[i]
    {
      if out[k] == '+' {
        out[k] := '-';
      } else if out[k] == '/' {
        out[k] := '_';
      }
    }
    UrlSafePlain(input[..Encodable(|input|, out.Length)]);
    assert out[..length] == Mapped(text);
  }

  function Mapped(s: string): (t: string)
    ensures |t| == |s| && forall i :: 0 <= i < |s| ==> t[i] == UrlSafe(s[i])
  {
    seq(|s|, i requires 0 <= i < |s| => UrlSafe(s[i]))
  }

  /** The text of three bytes before `+` and `/` are replaced. */
  function Quad(s: seq<Octet>): (t: string)
    requires |s| >= 3
    ensures |t| == 4
  {
    var x, y, z := s[0] as int, s[1] as int, s[2] as int;
    [TableChar(x / 4), TableChar(x % 4 * 16 + y / 16), TableChar(y % 16 * 4 + z / 64), TableChar(z % 64)]
  }

  /** The text before `+` and `/` are replaced. */
  function Plain(s: seq<Octet>): string {
    if s == [] then []
    else
      var x := s[0] as int;
      if |s| == 1 then [TableChar(x / 4), TableChar(x % 4 * 16)]
      else if |s| == 2 then
        var y := s[1] as int;
        [TableChar(x / 4), TableChar(x % 4 * 16 + y / 16), TableChar(y % 16 * 4)]
      else Quad(s) + Plain(s[3..])
  }

  lemma PlainStep(s: seq<Octet>)
    requires |s| >= 3
    ensures Plain(s) == Quad(s) + Plain(s[3..])
  {
    hide Quad;
  }

  lemma {:induction false} UrlSafePlain(s: seq<Octet>)
    ensures Mapped(Plain(s)) == Encode(s)
  {
    hide TableChar, UrlSafe;
    if |s| >= 3 {
      UrlSafePlain(s[3..]);
      assert Mapped(Plain(s)) == Three(s[0], s[1], s[2]) + Mapped(Plain(s[3..]));
    }
  }

  lemma {:induction false} PlainAppend(a: seq<Octet>, b: seq<Octet>)
    requires |a| % 3 == 0
    ensures Plain(a + b) == Plain(a) + Plain(b)
  {
    hide TableChar, Plain;
    if a == [] {
      assert a + b == b;
      PlainEmpty();
    } else {
      PlainStep(a);
      PlainStep(a + b);
      PlainAppend(a[3..], b);
      assert (a + b)[3..] == a[3..] + b;
      assert Quad(a + b) == Quad(a);
    }
  }

  /** The first pass: the standard alphabet. */
  method EncodeStandard(input: seq<Octet>, out: array<char>) returns (j: nat)
    requires out.Length > 0
    modifies out
    ensures j < out.Length && out[j] == '\0'
    ensures out[..j] == Plain(input[..Encodable(|input|, out.Length)])
  {
    hide TableChar, Plain;
    var i, n := 0, |input|;
    j := 0;
    PlainEmpty();
    while i + 2 < n && j + 4 < out.Length
      invariant i <= n && i % 3 == 0 && j == i / 3 * 4 && j < out.Length
      invariant out[..j] == Plain(input[..i])
    {
      var x, y, z := input[i] as int, input[i + 1] as int, input[i + 2] as int;
      ghost var before := out[..j];
      out[j] := TableChar(x / 4);
      out[j + 1] := TableChar(x % 4 * 16 + y / 16);
      out[j + 2] := TableChar(y % 16 * 4 + z / 64);
      out[j + 3] := TableChar(z % 64);
      j := j + 4;
      PlainNext(input, i, 3);
      assert out[..j] == before + [out[j - 4], out[j - 3], out[j - 2], out[j - 1]];
      i := i + 3;
    }
    j := EncodeTail(input, i, out, j);
    out[j] := '\0';
  }

  /** The bytes that are left, if they fit. */
  method EncodeTail(input: seq<Octet>, i: nat, out: array<char>, j: nat) returns (j': nat)
    requires i <= |input| && i % 3 == 0 && j == i / 3 * 4 && j < out.Length && out[..j] == Plain(input[..i])
    requires i + 2 >= |input| || j + 4 >= out.Length
    modifies out
    ensures j' < out.Length && out[..j'] == Plain(input[..Encodable(|input|, out.Length)])
  {
    hide TableChar, Plain;
    var n := |input|;
    EncodableAt(i, n, out.Length);
    if i >= n || j + 4 >= out.Length {
      return j;
    }
    var x := input[i] as int;
    ghost var before := out[..j];
    PlainNext(input, i, n - i);
    out[j] := TableChar(x / 4);
    if i + 1 < n {
      var y := input[i + 1] as int;
      out[j + 1] := TableChar(x % 4 * 16 + y / 16);
      out[j + 2] := TableChar(y % 16 * 4);
      j' := j + 3;
      assert out[..j'] == before + [out[j], out[j + 1], out[j + 2]];
    } else {
      out[j + 1] := TableChar(x % 4 * 16);
      j' := j + 2;
      assert out[..j'] == before + [out[j], out[j + 1]];
    }
  }

  /** Where the first loop stops. */
  lemma EncodableAt(i: nat, n: nat, max: nat)
    requires i <= n && i % 3 == 0 && i / 3 * 4 < max && (i + 2 >= n || i / 3 * 4 + 4 >= max)
    ensures Encodable(n, max) == if i < n && i / 3 * 4 + 4 < max then n else i
  {
  }

  lemma PlainEmpty()
    ensures Plain([]) == []
  {
  }

  /** The symbols of the next `d` bytes. */
  lemma PlainNext(input: seq<Octet>, i: nat, d: nat)
    requires i % 3 == 0 && 1 <= d <= 3 && i + d <= |input|
    ensures
      var x := input[i] as int;
      Plain(input[..i + d]) == Plain(input[..i]) +
        if d == 1 then [TableChar(x / 4), TableChar(x % 4 * 16)]
        else
          var y := input[i + 1] as int;
          if d == 2 then [TableChar(x / 4), TableChar(x % 4 * 16 + y / 16), TableChar(y % 16 * 4)]
          else
            var z := input[i + 2] as int;
            [TableChar(x / 4), TableChar(x % 4 * 16 + y / 16), TableChar(y % 16 * 4 + z / 64), TableChar(z % 64)]
  {
    hide TableChar;
    var next := input[i..i + d];
    assert input[..i + d] == input[..i] + next;
    PlainAppend(input[..i], next);
    if d == 3 {
      PlainThree(next);
    }
  }

  lemma PlainThree(s: seq<Octet>)
    requires |s| == 3
    ensures
      var x, y, z := s[0] as int, s[1] as int, s[2] as int;
      Plain(s) == [TableChar(x / 4), TableChar(x % 4 * 16 + y / 16), TableChar(y % 16 * 4 + z / 64), TableChar(z % 64)]
  {
    hide TableChar;
    assert s[3..] == [];
    PlainEmpty();
  }

  /** The copy in the standard alphabet, padded. */
  method Unescape(input: string) returns (tmp: array<char>)
    ensures fresh(tmp) && tmp[..] == Padded(Standardized(input))
  {
    var n := |input|;
    var pad := (4 - n % 4) % 4;
    tmp := new char[n + pad](i => '=');
    for i := 0 to n
      invariant forall k :: 0 <= k < i ==> tmp[k] == Standard(input[k])
      invariant forall k :: n <= k < tmp.Length ==> tmp[k] == '='
    {
      if input[i] == '-' {
        tmp[i] := '+';
      } else if input[i] == '_' {
        tmp[i] := '/';
      } else {
        tmp[i] := input[i];
      }
    }
  }

  /** One group of four: up to three bytes, as far as they fit. */
  method DecodeGroup(p: char, q: char, r: char, s: char, out: array<Octet>, j: nat, max: nat) returns (j': nat)
    requires j < max <= out.Length
    modifies out
    ensures j' == Least(max, j + |Group(p, q, r, s)|)
    ensures out[..j'] == old(out[..j]) + Group(p, q, r, s)[..j' - j]
    ensures forall i :: max <= i < out.Length ==> out[i] == old(out[i])
  {
    hide Value;
    var a, b := Value(p), Value(q);
    var c := if r == '=' then 0 else Value(r);
    var d := if s == '=' then 0 else Value(s);
    out[j] := Byte(a * 4 + b / 16);
    j' := j + 1;
    if r != '=' && j' < max {
      out[j'] := Byte(b * 16 + c / 4);
      j' := j' + 1;
    }
    if s != '=' && j' < max {
      out[j'] := Byte(c * 64 + d);
      j' := j' + 1;
    }
  }

  /** base64url_decode: at most `max` bytes. */
  method DecodeInto(input: string, out: array<Octet>, max: nat) returns (j: nat)
    requires max <= out.Length
    modifies out
    ensures j <= max && out[..j] == Decoded(input, max)
    ensures forall i :: max <= i < out.Length ==> out[i] == old(out[i])
  {
    hide Group, Padded, Standardized;
    var tmp := Unescape(input);
    ghost var all := Groups(tmp[..]);
    j := 0;
    var i := 0;
    assert tmp[0..] == tmp[..];
    while i + 3 < tmp.Length && j < max
      invariant i <= tmp.Length && i % 4 == 0 && tmp.Length % 4 == 0 && j <= max
      invariant tmp[..] == Padded(Standardized(input))
      invariant Progress(out[..j], Groups(tmp[i..]), all, j < max)
      invariant forall k :: max <= k < out.Length ==> out[k] == old(out[k])
    {
      ghost var before, j0, rest := out[..j], j, Groups(tmp[i + 4..]);
      ghost var group := Group(tmp[i], tmp[i + 1], tmp[i + 2], tmp[i + 3]);
      assert Groups(tmp[i..]) == group + rest by {
        assert tmp[i..][4..] == tmp[i + 4..];
      }
      j := DecodeGroup(tmp[i], tmp[i + 1], tmp[i + 2], tmp[i + 3], out, j, max);
      i := i + 4;
      ProgressStep(before, group, rest, all, j - j0, j < max);
    }
    assert i == tmp.Length ==> tmp[i..] == [];
  }

  /** `done` is decoded and `rest` to come; when the buffer is full only a prefix counts. */
  ghost predicate Progress(done: seq<Octet>, rest: seq<Octet>, all: seq<Octet>, room: bool) {
    if room then done + rest == all else done <= all
  }

  lemma ProgressStep(done: seq<Octet>, group: seq<Octet>, rest: seq<Octet>, all: seq<Octet>, taken: nat, room: bool)
    requires Progress(done, group + rest, all, true) && taken <= |group| && (room ==> taken == |group|)
    ensures Progress(done + group[..taken], rest, all, room)
  {
    assert done + (group + rest) == done + group + rest;
    assert done + group[..taken] + (group[taken..] + rest) == all;
  }
}
