// Identifier encoding: UTF-8, then base64url without padding (section 5 of RFC 4648).
module Ids {
  import opened Wrappers
  import opened Sequences

  type Byte = b: int | 0 <= b < 256

  // ---------------------------------------------------------------- UTF-8

  function CharBytes(c: char): seq<Byte> {
    var n := c as int;
    if n < 0x80 then [n]
    else if n < 0x800 then [0xc0 + n / 64, 0x80 + n % 64]
    else if n < 0x1_0000 then [0xe0 + n / 4096, 0x80 + n / 64 % 64, 0x80 + n % 64]
    else [0xf0 + n / 262144, 0x80 + n / 4096 % 64, 0x80 + n / 64 % 64, 0x80 + n % 64]
  }

  function Utf8Encode(s: string): seq<Byte> {
    if s == "" then [] else CharBytes(s[0]) + Utf8Encode(s[1..])
  }

  predicate IsTail(b: Byte) {
    0x80 <= b < 0xc0
  }

  // The first character of a byte sequence and its length in bytes; overlong forms,
  // surrogates and values above 0x10ffff are refused.
  function FirstChar(b: seq<Byte>): (r: Option<(char, nat)>)
    ensures r.Some? ==> 0 < r.value.1 <= |b|
  {
    if b == [] then None
    else if b[0] < 0x80 then Some((b[0] as char, 1))
    else if 0xc2 <= b[0] < 0xe0 && |b| >= 2 && IsTail(b[1]) then
      var n: int := (b[0] as int - 0xc0) * 64 + (b[1] as int - 0x80);
      Some((n as char, 2))
    else if 0xe0 <= b[0] < 0xf0 && |b| >= 3 && IsTail(b[1]) && IsTail(b[2]) then
      var n: int := (b[0] as int - 0xe0) * 4096 + (b[1] as int - 0x80) * 64 + (b[2] as int - 0x80);
      if n < 0x800 || 0xd800 <= n < 0xe000 then None else Some((n as char, 3))
    else if 0xf0 <= b[0] < 0xf5 && |b| >= 4 && IsTail(b[1]) && IsTail(b[2]) && IsTail(b[3]) then
      var n: int := (b[0] as int - 0xf0) * 262144 + (b[1] as int - 0x80) * 4096 + (b[2] as int - 0x80) * 64 + (b[3] as int - 0x80);
      if n < 0x1_0000 || n > 0x10_ffff then None else Some((n as char, 4))
    else None
  }

  function Utf8Decode(b: seq<Byte>): Option<string> {
    if b == [] then Some("")
    else
      match FirstChar(b)
      case None => None
      case Some((c, n)) =>
        match Utf8Decode(b[n..])
        case None => None
        case Some(rest) => Some([c] + rest)
  }

  // Digits to base 64, most significant first.
  lemma Digits64(a: int, b: int, c: int, d: int)
    requires 0 <= b < 64 && 0 <= c < 64 && 0 <= d < 64
    ensures var n := a * 262144 + b * 4096 + c * 64 + d;
            n / 262144 == a && n / 4096 % 64 == b && n / 64 % 64 == c && n % 64 == d
  {
    var n := a * 262144 + b * 4096 + c * 64 + d;
    assert n == (a * 4096 + b * 64 + c) * 64 + d;
    assert n / 64 == a * 4096 + b * 64 + c;
    assert n / 4096 == a * 64 + b;
  }

  // The character read is the one those bytes encode.
  lemma FirstCharBytes(b: seq<Byte>)
    requires FirstChar(b).Some?
    ensures CharBytes(FirstChar(b).value.0) == b[..FirstChar(b).value.1]
  {
    if b[0] < 0x80 {
    } else if b[0] < 0xe0 {
      Digits64(0, 0, b[0] - 0xc0, b[1] - 0x80);
    } else if b[0] < 0xf0 {
      Digits64(0, b[0] - 0xe0, b[1] - 0x80, b[2] - 0x80);
      assert ((b[0] - 0xe0) as int * 4096 + (b[1] - 0x80) as int * 64 + (b[2] - 0x80)) / 4096 == b[0] - 0xe0;
    } else {
      Digits64(b[0] - 0xf0, b[1] - 0x80, b[2] - 0x80, b[3] - 0x80);
    }
  }

  lemma Digits64Sum(n: int)
    ensures n / 64 * 64 + n % 64 == n
    ensures n / 4096 * 4096 + n / 64 % 64 * 64 + n % 64 == n
    ensures n / 262144 * 262144 + n / 4096 % 64 * 4096 + n / 64 % 64 * 64 + n % 64 == n
  {
  }

  lemma FirstCharOf(c: char, rest: seq<Byte>)
    ensures FirstChar(CharBytes(c) + rest) == Some((c, |CharBytes(c)|))
  {
    Digits64Sum(c as int);
  }

  lemma {:induction false} Utf8RoundTrip(s: string)
    ensures Utf8Decode(Utf8Encode(s)) == Some(s)
  {
    if s != "" {
      FirstCharOf(s[0], Utf8Encode(s[1..]));
      DropFront(CharBytes(s[0]), Utf8Encode(s[1..]));
      Utf8RoundTrip(s[1..]);
      HeadAndTail(s);
    }
  }

  // Decoding is strict: only the encoding of a text decodes to it.
  lemma {:induction false} Utf8Strict(b: seq<Byte>)
    requires Utf8Decode(b).Some?
    ensures Utf8Encode(Utf8Decode(b).value) == b
  {
    if b != [] {
      var (c, n) := FirstChar(b).value;
      Utf8Strict(b[n..]);
      FirstCharBytes(b);
      EncodeCons(c, Utf8Decode(b[n..]).value);
      TakeAndDrop(b, n);
    }
  }

  lemma EncodeCons(c: char, rest: string)
    ensures Utf8Encode([c] + rest) == CharBytes(c) + Utf8Encode(rest)
  {
    DropFront([c], rest);
  }

  // ---------------------------------------------------------------- base64url

  predicate InAlphabet(c: char) {
    'A' <= c <= 'Z' || 'a' <= c <= 'z' || '0' <= c <= '9' || c == '-' || c == '_'
  }

  function SextetChar(n: int): (c: char)
    requires 0 <= n < 64
    ensures InAlphabet(c) && CharSextet(c) == n
  {
    if n < 26 then 'A' + n as char
    else if n < 52 then 'a' + (n - 26) as char
    else if n < 62 then '0' + (n - 52) as char
    else if n == 62 then '-' else '_'
  }

  function CharSextet(c: char): (n: int)
    requires InAlphabet(c)
    ensures 0 <= n < 64
  {
    if 'A' <= c <= 'Z' then c as int - 'A' as int
    else if 'a' <= c <= 'z' then c as int - 'a' as int + 26
    else if '0' <= c <= '9' then c as int - '0' as int + 52
    else if c == '-' then 62 else 63
  }

  lemma SextetCharOf(c: char)
    requires InAlphabet(c)
    ensures SextetChar(CharSextet(c)) == c
  {
  }

  // Three bytes make four characters; one or two left over make two or three.
  function Base64Encode(b: seq<Byte>): (s: string)
    ensures forall i :: 0 <= i < |s| ==> InAlphabet(s[i])
    ensures |s| % 4 != 1 && (s == "" <==> b == [])
  {
    if b == [] then ""
    else if |b| == 1 then [SextetChar(b[0] / 4), SextetChar(b[0] % 4 * 16)]
    else if |b| == 2 then
      [SextetChar(b[0] / 4), SextetChar(b[0] % 4 * 16 + b[1] / 16), SextetChar(b[1] % 16 * 4)]
    else
      FourOf(b[0], b[1], b[2]) + Base64Encode(b[3..])
  }

  function FourOf(a: Byte, b: Byte, c: Byte): (s: string)
    ensures |s| == 4 && forall i :: 0 <= i < 4 ==> InAlphabet(s[i])
  {
    [SextetChar(a / 4), SextetChar(a % 4 * 16 + b / 16), SextetChar(b % 16 * 4 + c / 64), SextetChar(c % 64)]
  }

  // The padded text decoded leniently: the unused low bits of the last character are ignored.
  function Base64Decode(s: string): (r: Option<seq<Byte>>)
    requires forall i :: 0 <= i < |s| ==> InAlphabet(s[i])
    ensures r.None? <==> |s| % 4 == 1
  {
    if s == "" then Some([])
    else if |s| == 1 then None
    else if |s| == 2 then Some([FirstByte(s[0], s[1])])
    else if |s| == 3 then Some([FirstByte(s[0], s[1]), SecondByte(s[1], s[2])])
    else
      match Base64Decode(s[4..])
      case None => None
      case Some(rest) => Some([FirstByte(s[0], s[1]), SecondByte(s[1], s[2]), ThirdByte(s[2], s[3])] + rest)
  }

  function FirstByte(x: char, y: char): Byte
    requires InAlphabet(x) && InAlphabet(y)
  {
    CharSextet(x) * 4 + CharSextet(y) / 16
  }

  function SecondByte(y: char, z: char): Byte
    requires InAlphabet(y) && InAlphabet(z)
  {
    CharSextet(y) % 16 * 16 + CharSextet(z) / 4
  }

  function ThirdByte(z: char, w: char): Byte
    requires InAlphabet(z) && InAlphabet(w)
  {
    CharSextet(z) % 4 * 64 + CharSextet(w)
  }

  // The unused low bits are zero, as an encoder leaves them.
  predicate Canonical(s: string)
    requires forall i :: 0 <= i < |s| ==> InAlphabet(s[i])
  {
    (|s| % 4 == 2 ==> CharSextet(s[|s| - 1]) % 16 == 0) && (|s| % 4 == 3 ==> CharSextet(s[|s| - 1]) % 4 == 0)
  }

  // Regrouping eight-bit and six-bit digits.
  lemma BytesToSextets(a: Byte, b: Byte, c: Byte)
    ensures a / 4 * 4 + (a % 4 * 16 + b / 16) / 16 == a
    ensures (a % 4 * 16 + b / 16) % 16 * 16 + (b % 16 * 4 + c / 64) / 4 == b
    ensures (b % 16 * 4 + c / 64) % 4 * 64 + c % 64 == c
    ensures a / 4 * 4 + a % 4 * 16 / 16 == a
    ensures (a % 4 * 16 + b / 16) % 16 * 16 + b % 16 * 4 / 4 == b
  {
  }

  lemma SextetsToBytes(x: int, y: int, z: int, w: int)
    requires 0 <= x < 64 && 0 <= y < 64 && 0 <= z < 64 && 0 <= w < 64
    ensures (x * 4 + y / 16) / 4 == x
    ensures (x * 4 + y / 16) % 4 * 16 + (y % 16 * 16 + z / 4) / 16 == y
    ensures (y % 16 * 16 + z / 4) % 16 * 4 + (z % 4 * 64 + w) / 64 == z
    ensures (z % 4 * 64 + w) % 64 == w
    ensures (x * 4 + y / 16) % 4 * 16 == y - y % 16
    ensures (y % 16 * 16 + z / 4) % 16 * 4 == z - z % 4
  {
  }

  lemma DecodeFourOf(a: Byte, b: Byte, c: Byte, rest: string)
    requires (forall i :: 0 <= i < |rest| ==> InAlphabet(rest[i])) && Base64Decode(rest).Some?
    ensures Base64Decode(FourOf(a, b, c) + rest) == Some([a, b, c] + Base64Decode(rest).value)
  {
    var four := FourOf(a, b, c);
    ThreeBack(a, b, c);
    assert (four + rest)[4..] == rest && (four + rest)[..4] == four;
  }

  lemma ThreeBack(a: Byte, b: Byte, c: Byte)
    ensures var s := FourOf(a, b, c);
            FirstByte(s[0], s[1]) == a && SecondByte(s[1], s[2]) == b && ThirdByte(s[2], s[3]) == c
  {
    BytesToSextets(a, b, c);
  }

  lemma RoundTripTwo(a: Byte, b: Byte)
    ensures Base64Decode(Base64Encode([a, b])) == Some([a, b])
  {
    BytesToSextets(a, b, 0);
  }

  lemma RoundTripOne(a: Byte)
    ensures Base64Decode(Base64Encode([a])) == Some([a])
  {
    BytesToSextets(a, 0, 0);
  }

  lemma {:induction false} Base64RoundTrip(b: seq<Byte>)
    ensures Base64Decode(Base64Encode(b)) == Some(b)
  {
    if |b| >= 3 {
      Base64RoundTrip(b[3..]);
      DecodeFourOf(b[0], b[1], b[2], Base64Encode(b[3..]));
      assert b[..3] == [b[0], b[1], b[2]];
      TakeAndDrop(b, 3);
    } else if |b| == 2 {
      RoundTripTwo(b[0], b[1]);
      assert b == [b[0], b[1]];
    } else if |b| == 1 {
      RoundTripOne(b[0]);
      assert b == [b[0]];
    }
  }

  // Re-encoding gives the text back exactly when it is canonical.
  lemma {:induction false} Base64Reencode(s: string)
    requires forall i :: 0 <= i < |s| ==> InAlphabet(s[i])
    requires Base64Decode(s).Some?
    ensures Base64Encode(Base64Decode(s).value) == s <==> Canonical(s)
  {
    if |s| >= 4 {
      Base64Reencode(s[4..]);
      ReencodeGroup(s);
      CanonicalTail(s);
    } else if |s| == 3 {
      ReencodeThree(s);
    } else if |s| == 2 {
      ReencodeTwo(s);
    }
  }

  lemma CanonicalTail(s: string)
    requires |s| >= 4 && forall i :: 0 <= i < |s| ==> InAlphabet(s[i])
    ensures Canonical(s) <==> Canonical(s[4..])
  {
    FourLess(|s|);
  }

  lemma FourLess(n: int)
    ensures (n - 4) % 4 == n % 4
  {
  }

  // The first three bytes of a decoded text, regrouped.
  lemma DecodedGroup(s: string)
    requires |s| >= 4 && (forall i :: 0 <= i < |s| ==> InAlphabet(s[i])) && Base64Decode(s).Some?
    ensures Base64Decode(s[4..]).Some?
    ensures var b := Base64Decode(s).value;
            && |b| >= 3 && b[3..] == Base64Decode(s[4..]).value
            && b[0] / 4 == CharSextet(s[0]) && b[0] % 4 * 16 + b[1] / 16 == CharSextet(s[1])
            && b[1] % 16 * 4 + b[2] / 64 == CharSextet(s[2]) && b[2] % 64 == CharSextet(s[3])
  {
    SextetsToBytes(CharSextet(s[0]), CharSextet(s[1]), CharSextet(s[2]), CharSextet(s[3]));
  }

  lemma FourOfSextets(a: Byte, b: Byte, c: Byte, x: int, y: int, z: int, w: int)
    requires a / 4 == x && a % 4 * 16 + b / 16 == y && b % 16 * 4 + c / 64 == z && c % 64 == w
    ensures FourOf(a, b, c) == [SextetChar(x), SextetChar(y), SextetChar(z), SextetChar(w)]
  {
  }

  lemma ReencodeGroup(s: string)
    requires |s| >= 4 && (forall i :: 0 <= i < |s| ==> InAlphabet(s[i])) && Base64Decode(s).Some?
    ensures Base64Decode(s[4..]).Some?
    ensures Base64Encode(Base64Decode(s).value) == s[..4] + Base64Encode(Base64Decode(s[4..]).value)
    ensures s == s[..4] + s[4..]
  {
    DecodedGroup(s);
    var b := Base64Decode(s).value;
    FourOfSextets(b[0], b[1], b[2], CharSextet(s[0]), CharSextet(s[1]), CharSextet(s[2]), CharSextet(s[3]));
    FourChars(s);
  }

  lemma FourChars(s: string)
    requires |s| >= 4 && forall i :: 0 <= i < |s| ==> InAlphabet(s[i])
    ensures s[..4] == [SextetChar(CharSextet(s[0])), SextetChar(CharSextet(s[1])),
                       SextetChar(CharSextet(s[2])), SextetChar(CharSextet(s[3]))]
  {
    SextetCharOf(s[0]);
    SextetCharOf(s[1]);
    SextetCharOf(s[2]);
    SextetCharOf(s[3]);
  }

  lemma DecodedThree(s: string)
    requires |s| == 3 && forall i :: 0 <= i < |s| ==> InAlphabet(s[i])
    ensures Base64Decode(s).Some? && |Base64Decode(s).value| == 2
    ensures var b := Base64Decode(s).value;
            && b[0] / 4 == CharSextet(s[0]) && b[0] % 4 * 16 + b[1] / 16 == CharSextet(s[1])
            && b[1] % 16 * 4 == CharSextet(s[2]) - CharSextet(s[2]) % 4
  {
    SextetsToBytes(CharSextet(s[0]), CharSextet(s[1]), CharSextet(s[2]), 0);
  }

  lemma EncodeTwo(b: seq<Byte>, x: int, y: int, z: int)
    requires |b| == 2 && b[0] / 4 == x && b[0] % 4 * 16 + b[1] / 16 == y && b[1] % 16 * 4 == z
    ensures Base64Encode(b) == [SextetChar(x), SextetChar(y), SextetChar(z)]
  {
  }

  lemma SextetCharInjective(m: int, n: int)
    requires 0 <= m < 64 && 0 <= n < 64
    ensures SextetChar(m) == SextetChar(n) <==> m == n
  {
  }

  lemma ThreeChars(s: string)
    requires |s| == 3 && forall i :: 0 <= i < |s| ==> InAlphabet(s[i])
    ensures s == [SextetChar(CharSextet(s[0])), SextetChar(CharSextet(s[1])), SextetChar(CharSextet(s[2]))]
  {
    SextetCharOf(s[0]);
    SextetCharOf(s[1]);
    SextetCharOf(s[2]);
  }

  lemma ReencodeThree(s: string)
    requires |s| == 3 && forall i :: 0 <= i < |s| ==> InAlphabet(s[i])
    ensures Base64Decode(s).Some? && (Base64Encode(Base64Decode(s).value) == s <==> Canonical(s))
  {
    var z := CharSextet(s[2]);
    DecodedThree(s);
    var t := Base64Encode(Base64Decode(s).value);
    EncodeTwo(Base64Decode(s).value, CharSextet(s[0]), CharSextet(s[1]), z - z % 4);
    ThreeChars(s);
    SextetCharInjective(z - z % 4, z);
    assert t == s <==> t[2] == s[2];
  }

  lemma EncodeOne(b: seq<Byte>, x: int, y: int)
    requires |b| == 1 && b[0] / 4 == x && b[0] % 4 * 16 == y
    ensures Base64Encode(b) == [SextetChar(x), SextetChar(y)]
  {
  }

  lemma ReencodeTwo(s: string)
    requires |s| == 2 && forall i :: 0 <= i < |s| ==> InAlphabet(s[i])
    ensures Base64Decode(s).Some? && (Base64Encode(Base64Decode(s).value) == s <==> Canonical(s))
  {
    var x, y := CharSextet(s[0]), CharSextet(s[1]);
    SextetsToBytes(x, y, 0, 0);
    EncodeOne(Base64Decode(s).value, x, y - y % 16);
    SextetCharOf(s[0]);
    SextetCharOf(s[1]);
    assert s == [s[0], s[1]];
    assert CharSextet(SextetChar(y - y % 16)) == y - y % 16;
  }

  // ---------------------------------------------------------------- identifiers

  datatype IdError = EmptyValue | BadAlphabet | BadValue

  function EncodeId(value: string): (s: string)
    ensures forall i :: 0 <= i < |s| ==> InAlphabet(s[i])
  {
    Base64Encode(Utf8Encode(value))
  }

  function DecodeId(value: string): Result<string, IdError> {
    if value == "" then Err(EmptyValue)
    else if exists i :: 0 <= i < |value| && !InAlphabet(value[i]) then Err(BadAlphabet)
    else
      match Base64Decode(value)
      case None => Err(BadValue)
      case Some(raw) =>
        match Utf8Decode(raw)
        case None => Err(BadValue)
        case Some(text) => Ok(text)
  }

  // Decoding gives back every non-empty identifier; the empty one cannot be addressed.
  lemma DecodeEncode(value: string)
    ensures DecodeId(EncodeId(value)) == if value == "" then Err(EmptyValue) else Ok(value)
  {
    Utf8RoundTrip(value);
    Base64RoundTrip(Utf8Encode(value));
    if value != "" {
      assert |CharBytes(value[0])| > 0;
    }
  }

  lemma EncodeInjective(a: string, b: string)
    requires EncodeId(a) == EncodeId(b)
    ensures a == b
  {
    Utf8RoundTrip(a);
    Utf8RoundTrip(b);
    Base64RoundTrip(Utf8Encode(a));
    Base64RoundTrip(Utf8Encode(b));
  }

  // Several texts decode to the same identifier: exactly the canonical one is what the
  // identifier encodes to.
  lemma EncodeDecode(value: string)
    requires DecodeId(value).Ok?
    ensures EncodeId(DecodeId(value).value) == value <==> Canonical(value)
  {
    Utf8Strict(Base64Decode(value).value);
    Base64Reencode(value);
  }
}
