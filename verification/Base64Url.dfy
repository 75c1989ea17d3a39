/**
 Base64 with the URL-safe alphabet and no padding (RFC 4648, sections 3.2 and 5),
 rejecting stray trailing bits, as the strict decoder of the program does.
 */
module Base64Url {
  import opened Prelude

  type sextet = v: int | 0 <= v < 64

  function CharOf(v: sextet): char {
    if v < 26 then 'A' + v as char
    else if v < 52 then 'a' + (v - 26) as char
    else if v < 62 then '0' + (v - 52) as char
    else if v == 62 then '-' else '_'
  }

  function ValueOf(c: char): Option<sextet> {
    if 'A' <= c <= 'Z' then Some((c - 'A') as int)
    else if 'a' <= c <= 'z' then Some((c - 'a') as int + 26)
    else if '0' <= c <= '9' then Some((c - '0') as int + 52)
    else if c == '-' then Some(62)
    else if c == '_' then Some(63)
    else None
  }

  // Sextets of three bytes, and bytes of four sextets.
  function S0(a: byte): sextet { a / 4 }
  function S1(a: byte, b: byte): sextet { a % 4 * 16 + b / 16 }
  function S2(b: byte, c: byte): sextet { b % 16 * 4 + c / 64 }
  function S3(c: byte): sextet { c % 64 }
  function B0(v0: sextet, v1: sextet): byte { v0 * 4 + v1 / 16 }
  function B1(v1: sextet, v2: sextet): byte { v1 % 16 * 16 + v2 / 4 }
  function B2(v2: sextet, v3: sextet): byte { v2 % 4 * 64 + v3 }

  function Encode(b: seq<byte>): string {
    if |b| == 0 then ""
    else if |b| == 1 then [CharOf(S0(b[0])), CharOf(S1(b[0], 0))]
    else if |b| == 2 then [CharOf(S0(b[0])), CharOf(S1(b[0], b[1])), CharOf(S2(b[1], 0))]
    else [CharOf(S0(b[0])), CharOf(S1(b[0], b[1])), CharOf(S2(b[1], b[2])), CharOf(S3(b[2]))] + Encode(b[3..])
  }

  function Values(s: string): Option<seq<sextet>> {
    if s == "" then Some([])
    else match ValueOf(s[0])
      case None => None
      case Some(v) =>
        match Values(s[1..])
        case None => None
        case Some(vs) => Some([v] + vs)
  }

  function Bytes(v: seq<sextet>): Option<seq<byte>> {
    if |v| == 0 then Some([])
    else if |v| == 1 then None
    else if |v| == 2 then
      if v[1] % 16 != 0 then None else Some([B0(v[0], v[1])])
    else if |v| == 3 then
      if v[2] % 4 != 0 then None else Some([B0(v[0], v[1]), B1(v[1], v[2])])
    else match Bytes(v[4..])
      case None => None
      case Some(rest) => Some([B0(v[0], v[1]), B1(v[1], v[2]), B2(v[2], v[3])] + rest)
  }

  function Decode(s: string): Option<seq<byte>> {
    match Values(s)
    case None => None
    case Some(v) => Bytes(v)
  }

  // ----- the two directions -------------------------------------------------

  function Sextets(b: seq<byte>): seq<sextet> {
    if |b| == 0 then []
    else if |b| == 1 then [S0(b[0]), S1(b[0], 0)]
    else if |b| == 2 then [S0(b[0]), S1(b[0], b[1]), S2(b[1], 0)]
    else [S0(b[0]), S1(b[0], b[1]), S2(b[1], b[2]), S3(b[2])] + Sextets(b[3..])
  }

  function Chars(v: seq<sextet>): string {
    if v == [] then "" else [CharOf(v[0])] + Chars(v[1..])
  }

  lemma CharRoundTrip(v: sextet)
    ensures ValueOf(CharOf(v)) == Some(v)
  {
  }

  lemma ValueRoundTrip(c: char)
    ensures ValueOf(c).Some? ==> CharOf(ValueOf(c).value) == c
  {
  }

  lemma {:induction false} CharsRoundTrip(v: seq<sextet>)
    ensures Values(Chars(v)) == Some(v)
  {
    if v != [] {
      CharRoundTrip(v[0]);
      CharsRoundTrip(v[1..]);
      assert Chars(v)[1..] == Chars(v[1..]);
      assert v == [v[0]] + v[1..];
    }
  }

  lemma {:induction false} ValuesRoundTrip(s: string)
    ensures Values(s).Some? ==> Chars(Values(s).value) == s
  {
    if s != "" {
      ValueRoundTrip(s[0]);
      ValuesRoundTrip(s[1..]);
      if Values(s).Some? {
        assert Values(s).value[1..] == Values(s[1..]).value;
      }
    }
  }

  lemma CharsCons(v: sextet, rest: seq<sextet>)
    ensures Chars([v] + rest) == [CharOf(v)] + Chars(rest)
  {
    assert ([v] + rest)[1..] == rest;
  }

  lemma {:induction false} EncodeIsChars(b: seq<byte>)
    ensures Encode(b) == Chars(Sextets(b))
  {
    if |b| == 1 {
      CharsCons(S1(b[0], 0), []);
      CharsCons(S0(b[0]), [S1(b[0], 0)]);
    } else if |b| == 2 {
      CharsCons(S2(b[1], 0), []);
      CharsCons(S1(b[0], b[1]), [S2(b[1], 0)]);
      CharsCons(S0(b[0]), [S1(b[0], b[1]), S2(b[1], 0)]);
    } else if |b| >= 3 {
      EncodeIsChars(b[3..]);
      CharsOfFour(S0(b[0]), S1(b[0], b[1]), S2(b[1], b[2]), S3(b[2]), Sextets(b[3..]));
      hide Chars;
    }
  }

  lemma CharsOfFour(v0: sextet, v1: sextet, v2: sextet, v3: sextet, rest: seq<sextet>)
    ensures Chars([v0, v1, v2, v3] + rest) == [CharOf(v0), CharOf(v1), CharOf(v2), CharOf(v3)] + Chars(rest)
  {
    hide Chars, CharOf;
    CharsCons(v3, rest);
    CharsCons(v2, [v3] + rest);
    CharsCons(v1, [v2] + ([v3] + rest));
    CharsCons(v0, [v1] + ([v2] + ([v3] + rest)));
    assert [v0, v1, v2, v3] + rest == [v0] + ([v1] + ([v2] + ([v3] + rest)));
  }

  lemma ThreeBytes(a: byte, b: byte, c: byte)
    ensures B0(S0(a), S1(a, b)) == a && B1(S1(a, b), S2(b, c)) == b && B2(S2(b, c), S3(c)) == c
    ensures S1(a, 0) % 16 == 0 && S2(b, 0) % 4 == 0
  {
  }

  lemma FourSextets(v0: sextet, v1: sextet, v2: sextet, v3: sextet)
    ensures S0(B0(v0, v1)) == v0 && S1(B0(v0, v1), B1(v1, v2)) == v1
    ensures S2(B1(v1, v2), B2(v2, v3)) == v2 && S3(B2(v2, v3)) == v3
    ensures v1 % 16 == 0 ==> S1(B0(v0, v1), 0) == v1
    ensures v2 % 4 == 0 ==> S2(B1(v1, v2), 0) == v2
  {
  }

  lemma {:induction false} BytesOfSextets(b: seq<byte>)
    ensures Bytes(Sextets(b)) == Some(b)
  {
    hide S0, S1, S2, S3, B0, B1, B2;
    if |b| >= 3 {
      BytesOfSextets(b[3..]);
      ThreeBytes(b[0], b[1], b[2]);
      assert Sextets(b)[4..] == Sextets(b[3..]);
      assert b == [b[0], b[1], b[2]] + b[3..];
    } else if |b| == 2 {
      ThreeBytes(b[0], b[1], 0);
      assert b == [b[0], b[1]];
    } else if |b| == 1 {
      ThreeBytes(b[0], 0, 0);
      assert b == [b[0]];
    }
  }

  lemma {:induction false} SextetsOfBytes(v: seq<sextet>)
    ensures Bytes(v).Some? ==> Sextets(Bytes(v).value) == v
  {
    hide S0, S1, S2, S3, B0, B1, B2;
    if |v| >= 4 {
      SextetsOfBytes(v[4..]);
      FourSextets(v[0], v[1], v[2], v[3]);
      if Bytes(v).Some? {
        assert Bytes(v).value[3..] == Bytes(v[4..]).value;
        assert v == [v[0], v[1], v[2], v[3]] + v[4..];
      }
    } else if |v| == 3 {
      FourSextets(v[0], v[1], v[2], 0);
    } else if |v| == 2 {
      FourSextets(v[0], v[1], 0, 0);
    }
  }

  /** The decoder accepts exactly what the encoder writes, and gives it back. */
  lemma DecodeIffEncoded(s: string, b: seq<byte>)
    ensures Decode(s) == Some(b) <==> s == Encode(b)
  {
    EncodeIsChars(b);
    CharsRoundTrip(Sextets(b));
    BytesOfSextets(b);
    ValuesRoundTrip(s);
    if Decode(s) == Some(b) {
      SextetsOfBytes(Values(s).value);
    }
  }

  lemma {:induction false} NoDotInEncoding(b: seq<byte>)
    ensures '.' !in Encode(b)
  {
    EncodeIsChars(b);
    NoDotInChars(Sextets(b));
  }

  lemma {:induction false} NoDotInChars(v: seq<sextet>)
    ensures '.' !in Chars(v)
  {
    if v != [] {
      NoDotInChars(v[1..]);
    }
  }
}
