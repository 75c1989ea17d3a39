/**
 Signed impression and click URLs: a length-prefixed record, base64url, and a
 keyed MAC. The MAC is an uninterpreted function of key and message.
 */
module SignedUrls {
  import opened Prelude
  import opened Wire
  import opened Base64Url

  const DEFAULT_TTL_SECS := 24 * 60 * 60

  type Tag = t: seq<byte> | |t| == 32 witness seq(32, _ => 0)
  type Mac = (seq<byte>, seq<byte>) -> Tag

  /** Strings are their UTF-8 bytes. */
  datatype Payload = Payload(projectId: seq<byte>, adId: i64, creativeId: i64, placementHash: seq<byte>,
                             issuedAt: u64, nonce: seq<byte>)

  /** What the field types of the record guarantee. */
  predicate WellTyped(p: Payload) {
    ValidUtf8(p.projectId) && |p.placementHash| == 16 && |p.nonce| == 8
  }

  datatype VerifyError = Malformed | BadSignature | Expired

  const FIXED_LEN := 8 + 8 + 16 + 8 + 8

  function Packed(p: Payload): seq<byte>
    requires |p.projectId| <= 255
  {
    [|p.projectId| as byte] + p.projectId + I64Bytes(p.adId) + I64Bytes(p.creativeId)
    + p.placementHash + U64Bytes(p.issuedAt) + p.nonce
  }

  /** Reads the fields at their offsets; bytes past the record are ignored. */
  function Unpacked(buf: seq<byte>): Option<Payload> {
    if buf == [] then None
    else
      var pidLen: nat := buf[0];
      var at := 1 + pidLen;
      if |buf| < at + FIXED_LEN then None
      else if !ValidUtf8(buf[1..at]) then None
      else Some(Payload(buf[1..at], I64FromBytes(buf[at..at + 8]), I64FromBytes(buf[at + 8..at + 16]),
                        buf[at + 16..at + 32], U64FromBytes(buf[at + 32..at + 40]), buf[at + 40..at + 48]))
  }

  method UnpackRecord(buf: seq<byte>) returns (r: Option<Payload>)
    ensures r == Unpacked(buf)
  {
    if |buf| == 0 {
      return None;
    }
    var pidLen := buf[0];
    var idx: nat := 1;
    if |buf| < idx + pidLen + 8 + 8 + 16 + 8 + 8 {
      return None;
    }
    var projectId := buf[idx..idx + pidLen];
    if !ValidUtf8(projectId) {
      return None;
    }
    idx := idx + pidLen;
    var adId := I64FromBytes(buf[idx..idx + 8]);
    idx := idx + 8;
    var creativeId := I64FromBytes(buf[idx..idx + 8]);
    idx := idx + 8;
    var placementHash := buf[idx..idx + 16];
    idx := idx + 16;
    var issuedAt := U64FromBytes(buf[idx..idx + 8]);
    idx := idx + 8;
    var nonce := buf[idx..idx + 8];
    return Some(Payload(projectId, adId, creativeId, placementHash, issuedAt, nonce));
  }

  // ----- the record ---------------------------------------------------------

  /** The slices of a buffer that starts with a packed record are its fields. */
  lemma PackedSlices(p: Payload, buf: seq<byte>)
    requires WellTyped(p) && |p.projectId| <= 255 && Packed(p) <= buf
    ensures var at := 1 + |p.projectId|;
            && |buf| >= at + FIXED_LEN && buf[0] == |p.projectId| && buf[1..at] == p.projectId
            && buf[at..at + 8] == I64Bytes(p.adId) && buf[at + 8..at + 16] == I64Bytes(p.creativeId)
            && buf[at + 16..at + 32] == p.placementHash && buf[at + 32..at + 40] == U64Bytes(p.issuedAt)
            && buf[at + 40..at + 48] == p.nonce
  {
    hide I64Bytes, U64Bytes, ValidUtf8;
    var at := 1 + |p.projectId|;
    var r := Packed(p);
    assert |r| == at + FIXED_LEN && buf[..|r|] == r;
    assert r[1..at] == p.projectId;
    assert r[at..at + 8] == I64Bytes(p.adId);
    assert r[at + 8..at + 16] == I64Bytes(p.creativeId);
    assert r[at + 16..at + 32] == p.placementHash;
    assert r[at + 32..at + 40] == U64Bytes(p.issuedAt);
    assert r[at + 40..at + 48] == p.nonce;
    SlicesAgree(r, buf, at);
  }

  lemma SlicesAgree(r: seq<byte>, buf: seq<byte>, at: nat)
    requires r <= buf && |r| == at + FIXED_LEN && at >= 1
    ensures buf[0] == r[0] && buf[1..at] == r[1..at]
    ensures buf[at..at + 8] == r[at..at + 8] && buf[at + 8..at + 16] == r[at + 8..at + 16]
    ensures buf[at + 16..at + 32] == r[at + 16..at + 32] && buf[at + 32..at + 40] == r[at + 32..at + 40]
    ensures buf[at + 40..at + 48] == r[at + 40..at + 48]
  {
    assert buf[..|r|] == r;
  }

  lemma SlicesJoin(buf: seq<byte>, at: nat)
    requires 1 <= at && at + FIXED_LEN <= |buf|
    ensures buf[..at + 48] == [buf[0]] + buf[1..at] + buf[at..at + 8] + buf[at + 8..at + 16]
                              + buf[at + 16..at + 32] + buf[at + 32..at + 40] + buf[at + 40..at + 48]
  {
  }

  /**
   A buffer parses as `p` exactly when it starts with the packed form of `p`. So
   unpacking undoes packing, whatever follows, and packing is injective.
   */
  lemma UnpackedIffPackedPrefix(buf: seq<byte>, p: Payload)
    ensures Unpacked(buf) == Some(p) <==> WellTyped(p) && |p.projectId| <= 255 && Packed(p) <= buf
  {
    hide I64Bytes, U64Bytes, I64FromBytes, U64FromBytes, ValidUtf8;
    if WellTyped(p) && |p.projectId| <= 255 && Packed(p) <= buf {
      PackedSlices(p, buf);
      I64RoundTrip(p.adId, []);
      I64RoundTrip(p.creativeId, []);
      U64RoundTrip(p.issuedAt, []);
    }
    if Unpacked(buf) == Some(p) {
      var pidLen: nat := buf[0];
      var at := 1 + pidLen;
      I64RoundTrip(0, buf[at..at + 8]);
      I64RoundTrip(0, buf[at + 8..at + 16]);
      U64RoundTrip(0, buf[at + 32..at + 40]);
      SlicesJoin(buf, at);
    }
  }

  /**
   Grows the record field by field. Parsed, whatever follows it, the record gives the
   payload back, and every buffer that parses as the payload starts with it.
   */
  method PackRecord(p: Payload) returns (out: seq<byte>)
    requires |p.projectId| <= 255
    ensures out == Packed(p)
    ensures WellTyped(p) ==> forall rest: seq<byte> :: Unpacked(out + rest) == Some(p)
    ensures forall buf :: Unpacked(buf) == Some(p) ==> out <= buf
  {
    out := [];
    out := out + [|p.projectId| as byte];
    out := out + p.projectId;
    out := out + I64Bytes(p.adId);
    out := out + I64Bytes(p.creativeId);
    out := out + p.placementHash;
    out := out + U64Bytes(p.issuedAt);
    out := out + p.nonce;
    PackedParses(p);
  }

  lemma PackedParses(p: Payload)
    requires |p.projectId| <= 255
    ensures WellTyped(p) ==> forall rest: seq<byte> :: Unpacked(Packed(p) + rest) == Some(p)
    ensures forall buf :: Unpacked(buf) == Some(p) ==> Packed(p) <= buf
  {
    hide Unpacked, Packed, WellTyped;
    forall rest: seq<byte> | WellTyped(p)
      ensures Unpacked(Packed(p) + rest) == Some(p)
    {
      UnpackedIffPackedPrefix(Packed(p) + rest, p);
    }
    forall buf | Unpacked(buf) == Some(p)
      ensures Packed(p) <= buf
    {
      UnpackedIffPackedPrefix(buf, p);
    }
  }

  lemma PackingIsInjective(p: Payload, q: Payload)
    requires WellTyped(p) && WellTyped(q) && |p.projectId| <= 255 && |q.projectId| <= 255
    requires Packed(p) == Packed(q)
    ensures p == q
  {
    hide Packed, Unpacked;
    UnpackedIffPackedPrefix(Packed(p), p);
    UnpackedIffPackedPrefix(Packed(p), q);
  }

  // ----- signing and verifying ----------------------------------------------

  function Sign(p: Payload, secret: seq<byte>, mac: Mac): string
    requires |p.projectId| <= 255
  {
    Encode(Packed(p)) + "." + Encode(mac(secret, Packed(p)))
  }

  /** Splits at the first dot. */
  function SplitOnce(s: string): Option<(string, string)> {
    if s == "" then None
    else if s[0] == '.' then Some(("", s[1..]))
    else match SplitOnce(s[1..])
      case None => None
      case Some((a, b)) => Some(([s[0]] + a, b))
  }

  lemma {:induction false} SplitOnceIff(s: string, a: string, b: string)
    ensures SplitOnce(s) == Some((a, b)) <==> s == a + "." + b && '.' !in a
  {
    if s != "" && s[0] != '.' {
      if a != "" {
        SplitOnceIff(s[1..], a[1..], b);
        assert a == [a[0]] + a[1..];
        assert s == [s[0]] + s[1..];
        if s == a + "." + b {
          assert s[1..] == a[1..] + "." + b;
        }
        if SplitOnce(s) == Some((a, b)) {
          assert SplitOnce(s[1..]).value.0 == a[1..];
        }
      }
    } else if s != "" {
      assert s == "." + s[1..];
      if s == a + "." + b && '.' !in a {
        assert a == "";
      }
    }
  }

  /** Subtraction on unsigned 64-bit values that stops at zero. */
  function SaturatingSub(a: int, b: int): int {
    if a < b then 0 else a - b
  }

  function Verified(signed: string, current: seq<byte>, previous: Option<seq<byte>>, now: u64, ttl: u64, mac: Mac)
    : Result<Payload, VerifyError>
  {
    match SplitOnce(signed)
    case None => Err(Malformed)
    case Some((r64, m64)) =>
      match Decode(r64)
      case None => Err(Malformed)
      case Some(record) =>
        match Decode(m64)
        case None => Err(Malformed)
        case Some(tag) =>
          match Unpacked(record)
          case None => Err(Malformed)
          case Some(p) =>
            if tag != mac(current, record) && !(previous.Some? && tag == mac(previous.value, record))
            then Err(BadSignature)
            else if SaturatingSub(now, p.issuedAt) > ttl then Err(Expired)
            else Ok(p)
  }

  method Verify(signed: string, current: seq<byte>, previous: Option<seq<byte>>, now: u64, ttl: u64, mac: Mac)
    returns (r: Result<Payload, VerifyError>)
    ensures r == Verified(signed, current, previous, now, ttl, mac)
  {
    var parts := SplitOnce(signed);
    if parts.None? {
      return Err(Malformed);
    }
    var record := Decode(parts.value.0);
    if record.None? {
      return Err(Malformed);
    }
    var tag := Decode(parts.value.1);
    if tag.None? {
      return Err(Malformed);
    }
    var payload := UnpackRecord(record.value);
    if payload.None? {
      return Err(Malformed);
    }
    var ok := mac(current, record.value) == tag.value;
    if !ok {
      if previous.Some? {
        ok := mac(previous.value, record.value) == tag.value;
      }
    }
    if !ok {
      return Err(BadSignature);
    }
    if SaturatingSub(now, payload.value.issuedAt) > ttl {
      return Err(Expired);
    }
    return Ok(payload.value);
  }

  /** The string is a record and its tag under one of the accepted secrets. */
  ghost predicate TaggedBy(signed: string, record: seq<byte>, secret: seq<byte>, mac: Mac) {
    signed == Encode(record) + "." + Encode(mac(secret, record))
  }

  /**
   Exactly what verification accepts: a record that starts with the packed
   payload, tagged under the current or the previous secret, and not expired.
   */
  lemma VerifiedIff(signed: string, current: seq<byte>, previous: Option<seq<byte>>, now: u64, ttl: u64, mac: Mac,
                    p: Payload)
    ensures Verified(signed, current, previous, now, ttl, mac) == Ok(p)
       <==> WellTyped(p) && |p.projectId| <= 255 && now <= p.issuedAt + ttl
            && exists record :: Packed(p) <= record
                 && (TaggedBy(signed, record, current, mac)
                     || (previous.Some? && TaggedBy(signed, record, previous.value, mac)))
  {
    hide Packed, Unpacked, Encode, Decode, SplitOnce, WellTyped;
    if Verified(signed, current, previous, now, ttl, mac) == Ok(p) {
      var (r64, m64) := SplitOnce(signed).value;
      SplitOnceIff(signed, r64, m64);
      var record := Decode(r64).value;
      DecodeIffEncoded(r64, record);
      DecodeIffEncoded(m64, Decode(m64).value);
      UnpackedIffPackedPrefix(record, p);
      assert TaggedBy(signed, record, current, mac)
             || (previous.Some? && TaggedBy(signed, record, previous.value, mac));
    }
    if WellTyped(p) && |p.projectId| <= 255 && now <= p.issuedAt + ttl {
      if record, secret :| Packed(p) <= record && TaggedBy(signed, record, secret, mac)
                           && (secret == current || previous == Some(secret))
      {
        TaggedRecordVerifies(signed, record, secret, current, previous, now, ttl, mac, p);
      }
    }
  }

  lemma TaggedRecordVerifies(signed: string, record: seq<byte>, secret: seq<byte>, current: seq<byte>,
                             previous: Option<seq<byte>>, now: u64, ttl: u64, mac: Mac, p: Payload)
    requires WellTyped(p) && |p.projectId| <= 255 && now <= p.issuedAt + ttl
    requires Packed(p) <= record && TaggedBy(signed, record, secret, mac)
    requires secret == current || previous == Some(secret)
    ensures Verified(signed, current, previous, now, ttl, mac) == Ok(p)
  {
    hide Packed, Unpacked, Encode, Decode, SplitOnce, WellTyped;
    var tag := mac(secret, record);
    NoDotInEncoding(record);
    SplitOnceIff(signed, Encode(record), Encode(tag));
    DecodeIffEncoded(Encode(record), record);
    DecodeIffEncoded(Encode(tag), tag);
    UnpackedIffPackedPrefix(record, p);
  }

  /** A minted URL verifies while its secret is current or previous and the TTL lasts. */
  lemma SignThenVerify(p: Payload, secret: seq<byte>, current: seq<byte>, previous: Option<seq<byte>>, now: u64,
                       ttl: u64, mac: Mac)
    requires WellTyped(p) && |p.projectId| <= 255
    requires secret == current || previous == Some(secret)
    ensures Verified(Sign(p, secret, mac), current, previous, now, ttl, mac)
         == if now <= p.issuedAt + ttl then Ok(p) else Err(Expired)
  {
    hide Packed, Unpacked, Encode, Decode, SplitOnce, WellTyped;
    var record := Packed(p);
    var tag := mac(secret, record);
    NoDotInEncoding(record);
    SplitOnceIff(Sign(p, secret, mac), Encode(record), Encode(tag));
    DecodeIffEncoded(Encode(record), record);
    DecodeIffEncoded(Encode(tag), tag);
    UnpackedIffPackedPrefix(record, p);
  }
}
