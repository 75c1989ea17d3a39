/** Byte-level forms used by signed URLs: big-endian integers and UTF-8 validity. */
module Wire {
  import opened Prelude

  function BigEndian(x: nat, width: nat): (b: seq<byte>)
    ensures |b| == width
  {
    if width == 0 then [] else BigEndian(x / 256, width - 1) + [x % 256]
  }

  function FromBigEndian(b: seq<byte>): nat {
    if b == [] then 0 else FromBigEndian(b[..|b| - 1]) * 256 + b[|b| - 1]
  }

  function Pow256(n: nat): nat {
    if n == 0 then 1 else 256 * Pow256(n - 1)
  }

  lemma {:induction false} BigEndianRoundTrip(x: nat, width: nat)
    requires x < Pow256(width)
    ensures FromBigEndian(BigEndian(x, width)) == x
  {
    if width > 0 {
      BigEndianRoundTrip(x / 256, width - 1);
      assert BigEndian(x, width)[..width - 1] == BigEndian(x / 256, width - 1);
    }
  }

  lemma {:induction false} FromBigEndianRoundTrip(b: seq<byte>)
    ensures FromBigEndian(b) < Pow256(|b|)
    ensures BigEndian(FromBigEndian(b), |b|) == b
  {
    if b != [] {
      FromBigEndianRoundTrip(b[..|b| - 1]);
      assert b == b[..|b| - 1] + [b[|b| - 1]];
    }
  }

  /** The eight bytes of an unsigned, and of a two's-complement signed, 64-bit value. */
  function U64Bytes(x: u64): (b: seq<byte>)
    ensures |b| == 8
  {
    BigEndian(x, 8)
  }

  function U64FromBytes(b: seq<byte>): u64
    requires |b| == 8
  {
    FromBigEndianRoundTrip(b);
    Pow256Of8();
    FromBigEndian(b)
  }

  function I64Bytes(x: i64): (b: seq<byte>)
    ensures |b| == 8
  {
    U64Bytes(if x < 0 then x + TWO_64 else x)
  }

  function I64FromBytes(b: seq<byte>): i64
    requires |b| == 8
  {
    var u := U64FromBytes(b);
    if u <= I64_MAX then u else u - TWO_64
  }

  lemma Pow256Of8()
    ensures Pow256(8) == TWO_64
  {
    assert Pow256(4) == 0x1_0000_0000;
    assert Pow256(8) == 256 * (256 * (256 * (256 * Pow256(4))));
  }

  lemma U64RoundTrip(x: u64, b: seq<byte>)
    ensures U64FromBytes(U64Bytes(x)) == x
    ensures |b| == 8 ==> U64Bytes(U64FromBytes(b)) == b
  {
    Pow256Of8();
    BigEndianRoundTrip(x, 8);
    if |b| == 8 {
      FromBigEndianRoundTrip(b);
    }
  }

  lemma I64RoundTrip(x: i64, b: seq<byte>)
    ensures I64FromBytes(I64Bytes(x)) == x
    ensures |b| == 8 ==> I64Bytes(I64FromBytes(b)) == b
  {
    U64RoundTrip(if x < 0 then x + TWO_64 else x, b);
  }

  predicate Continuation(b: byte) {
    0x80 <= b <= 0xBF
  }

  /** Well-formed UTF-8: shortest forms only, no surrogates, nothing past U+10FFFF. */
  predicate ValidUtf8(s: seq<byte>) {
    if s == [] then true
    else if s[0] < 0x80 then ValidUtf8(s[1..])
    else if 0xC2 <= s[0] <= 0xDF then
      |s| >= 2 && Continuation(s[1]) && ValidUtf8(s[2..])
    else if 0xE0 <= s[0] <= 0xEF then
      && |s| >= 3 && Continuation(s[1]) && Continuation(s[2])
      && (s[0] == 0xE0 ==> 0xA0 <= s[1]) && (s[0] == 0xED ==> s[1] <= 0x9F)
      && ValidUtf8(s[3..])
    else if 0xF0 <= s[0] <= 0xF4 then
      && |s| >= 4 && Continuation(s[1]) && Continuation(s[2]) && Continuation(s[3])
      && (s[0] == 0xF0 ==> 0x90 <= s[1]) && (s[0] == 0xF4 ==> s[1] <= 0x8F)
      && ValidUtf8(s[4..])
    else false
  }
}
