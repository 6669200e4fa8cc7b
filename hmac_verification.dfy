/** The signature gate in front of the webhook route. It decides, from the
    `X-Shopify-Hmac-Sha256` header, the configured client secret and the raw
    request body, whether the request goes on (`next()`) or is answered with a
    401 or 500. HMAC-SHA256 (RFC 2104 over FIPS 180-4) is a parameter; the
    UTF-8 encoding of strings and the base64 encoding of section 4 of RFC 4648
    are written out, because the decision depends on byte lengths. */
module HmacVerification {
  import opened Results

  /** An octet. */
  type byte = x: int | 0 <= x < 256

  // ---------------------------------------------------------------------------
  // UTF-8, as `Buffer.from(string)` and the 'utf8' input encoding produce it

  /** The UTF-8 encoding of one Unicode scalar value. */
  function Utf8Char(c: char): (bs: seq<byte>)
    ensures 1 <= |bs| <= 4
    ensures c as int < 0x80 ==> bs == [c as int]
    ensures c as int >= 0x80 ==> |bs| >= 2 && bs[0] >= 0xC0
  {
    var n := c as int;
    if n < 0x80 then [n]
    else if n < 0x800 then [0xC0 + n / 0x40, 0x80 + n % 0x40]
    else if n < 0x10000 then [0xE0 + n / 0x1000, 0x80 + (n / 0x40) % 0x40, 0x80 + n % 0x40]
    else [0xF0 + n / 0x40000, 0x80 + (n / 0x1000) % 0x40, 0x80 + (n / 0x40) % 0x40, 0x80 + n % 0x40]
  }

  function Utf8Encode(s: string): (bs: seq<byte>)
    ensures |s| <= |bs| <= 4 * |s|
    decreases |s|
  {
    if s == [] then [] else Utf8Char(s[0]) + Utf8Encode(s[1..])
  }

  predicate IsAscii(s: string) {
    forall i :: 0 <= i < |s| ==> s[i] as int < 0x80
  }

  /** An ASCII string encodes to one byte per character. */
  lemma {:induction false} AsciiEncodedLength(s: string)
    requires IsAscii(s)
    ensures |Utf8Encode(s)| == |s|
    decreases |s|
  {
    if s != [] {
      assert IsAscii(s[1..]) by {
        forall i | 0 <= i < |s[1..]|
          ensures s[1..][i] as int < 0x80
        {
          assert s[1..][i] == s[i + 1];
        }
      }
      AsciiEncodedLength(s[1..]);
    }
  }

  /** Against an ASCII string, comparing UTF-8 bytes is comparing strings. */
  lemma {:induction false} Utf8MatchesAscii(s: string, d: string)
    requires IsAscii(d)
    ensures Utf8Encode(s) == Utf8Encode(d) <==> s == d
    decreases |d|
  {
    if d != [] && s != [] {
      assert IsAscii(d[1..]) by {
        forall i | 0 <= i < |d[1..]|
          ensures d[1..][i] as int < 0x80
        {
          assert d[1..][i] == d[i + 1];
        }
      }
      Utf8MatchesAscii(s[1..], d[1..]);
      var head := Utf8Char(s[0]);
      if s[0] as int < 0x80 {
        if Utf8Encode(s) == Utf8Encode(d) {
          assert Utf8Encode(s)[0] == s[0] as int && Utf8Encode(d)[0] == d[0] as int;
          assert Utf8Encode(s[1..]) == Utf8Encode(s)[1..] == Utf8Encode(d)[1..] == Utf8Encode(d[1..]);
          assert s == [s[0]] + s[1..] && d == [d[0]] + d[1..];
        }
      } else {
        assert Utf8Encode(s)[0] == head[0] >= 0xC0;
        assert Utf8Encode(d)[0] == d[0] as int < 0x80;
        assert s[0] != d[0];
      }
    } else if s != [] {
      assert |Utf8Encode(s)| >= 1;
    } else if d != [] {
      assert |Utf8Encode(d)| >= 1;
    }
  }

  // ---------------------------------------------------------------------------
  // Base64, section 4 of RFC 4648 (standard alphabet, '=' padding)

  /** The character of the base64 alphabet for a 6-bit value. */
  function Base64Char(v: int): (c: char)
    requires 0 <= v < 64
    ensures c as int < 0x80 && c != '='
  {
    if v < 26 then ('A' as int + v) as char
    else if v < 52 then ('a' as int + (v - 26)) as char
    else if v < 62 then ('0' as int + (v - 52)) as char
    else if v == 62 then '+'
    else '/'
  }

  /** The 6-bit value of a character of the base64 alphabet. */
  function Base64Value(c: char): (r: Option<int>)
    ensures r.Some? ==> 0 <= r.value < 64 && Base64Char(r.value) == c
  {
    if 'A' <= c <= 'Z' then Some(c as int - 'A' as int)
    else if 'a' <= c <= 'z' then Some(c as int - 'a' as int + 26)
    else if '0' <= c <= '9' then Some(c as int - '0' as int + 52)
    else if c == '+' then Some(62)
    else if c == '/' then Some(63)
    else None
  }

  lemma Base64ValueOfChar(v: int)
    requires 0 <= v < 64
    ensures Base64Value(Base64Char(v)) == Some(v)
  {
  }

  /** The quantum of a final single byte: two characters and two pads. */
  function EncodeOne(b0: byte): (q: string)
    ensures |q| == 4 && IsAscii(q)
  {
    [Base64Char(b0 / 4), Base64Char((b0 % 4) * 16), '=', '=']
  }

  /** The quantum of two final bytes: three characters and one pad. */
  function EncodeTwo(b0: byte, b1: byte): (q: string)
    ensures |q| == 4 && IsAscii(q)
  {
    [Base64Char(b0 / 4), Base64Char((b0 % 4) * 16 + b1 / 16), Base64Char((b1 % 16) * 4), '=']
  }

  /** Three bytes as four characters of six bits each. */
  function EncodeThree(b0: byte, b1: byte, b2: byte): (q: string)
    ensures |q| == 4 && IsAscii(q)
  {
    [Base64Char(b0 / 4), Base64Char((b0 % 4) * 16 + b1 / 16), Base64Char((b1 % 16) * 4 + b2 / 64), Base64Char(b2 % 64)]
  }

  /** Bytes as base64 text, three bytes to four characters. */
  function Base64Encode(bs: seq<byte>): (s: string)
    ensures |s| == 4 * ((|bs| + 2) / 3)
    ensures IsAscii(s)
    decreases |bs|
  {
    if |bs| == 0 then ""
    else if |bs| == 1 then EncodeOne(bs[0])
    else if |bs| == 2 then EncodeTwo(bs[0], bs[1])
    else
      var head, rest := EncodeThree(bs[0], bs[1], bs[2]), Base64Encode(bs[3..]);
      assert forall i :: 4 <= i < |head + rest| ==> (head + rest)[i] == rest[i - 4];
      head + rest
  }

  /** Four characters back to one, two or three bytes. */
  function DecodeQuantum(q: string): (r: Option<seq<byte>>)
    requires |q| == 4
  {
    var a, b, c, d := Base64Value(q[0]), Base64Value(q[1]), Base64Value(q[2]), Base64Value(q[3]);
    if a.None? || b.None? then None
    else if q[2] == '=' && q[3] == '=' then
      if b.value % 16 == 0 then Some([a.value * 4 + b.value / 16]) else None
    else if c.None? then None
    else if q[3] == '=' then
      if c.value % 4 == 0 then Some([a.value * 4 + b.value / 16, (b.value % 16) * 16 + c.value / 4]) else None
    else if d.None? then None
    else Some([a.value * 4 + b.value / 16, (b.value % 16) * 16 + c.value / 4, (c.value % 4) * 64 + d.value])
  }

  /** Base64 text back to bytes; padding only in the last quantum. */
  function Base64Decode(s: string): (r: Option<seq<byte>>)
    decreases |s|
  {
    if s == [] then Some([])
    else if |s| < 4 then None
    else
      match DecodeQuantum(s[..4])
      case None => None
      case Some(head) =>
        if |head| < 3 then (if |s| == 4 then Some(head) else None)
        else match Base64Decode(s[4..])
          case None => None
          case Some(tail) => Some(head + tail)
  }

  /** A final quantum of one byte and two pads decodes to that byte. */
  lemma DecodeOneByteQuantum(b0: byte)
    ensures DecodeQuantum(EncodeOne(b0)) == Some([b0])
  {
    var v0, v1 := b0 / 4, (b0 % 4) * 16;
    Base64ValueOfChar(v0);
    Base64ValueOfChar(v1);
    assert v1 % 16 == 0 && v1 / 16 == b0 % 4;
  }

  /** A final quantum of two bytes and one pad decodes to those bytes. */
  lemma DecodeTwoByteQuantum(b0: byte, b1: byte)
    ensures DecodeQuantum(EncodeTwo(b0, b1)) == Some([b0, b1])
  {
    var v0, v1, v2 := b0 / 4, (b0 % 4) * 16 + b1 / 16, (b1 % 16) * 4;
    Base64ValueOfChar(v0);
    Base64ValueOfChar(v1);
    Base64ValueOfChar(v2);
    assert v1 / 16 == b0 % 4 && v1 % 16 == b1 / 16;
    assert v2 % 4 == 0 && v2 / 4 == b1 % 16;
  }

  /** A full quantum decodes to its three bytes. */
  lemma DecodeFullQuantum(b0: byte, b1: byte, b2: byte)
    ensures DecodeQuantum(EncodeThree(b0, b1, b2)) == Some([b0, b1, b2])
  {
    var v0, v1, v2, v3 := b0 / 4, (b0 % 4) * 16 + b1 / 16, (b1 % 16) * 4 + b2 / 64, b2 % 64;
    Base64ValueOfChar(v0);
    Base64ValueOfChar(v1);
    Base64ValueOfChar(v2);
    Base64ValueOfChar(v3);
    assert v1 / 16 == b0 % 4 && v1 % 16 == b1 / 16;
    assert v2 / 4 == b1 % 16 && v2 % 4 == b2 / 64;
  }

  /** Decoding a full quantum followed by more text. */
  lemma DecodeAfterFullQuantum(q: string, rest: string, head: seq<byte>, tail: seq<byte>)
    requires |q| == 4 && DecodeQuantum(q) == Some(head) && |head| == 3
    requires Base64Decode(rest) == Some(tail)
    ensures Base64Decode(q + rest) == Some(head + tail)
  {
    assert (q + rest)[..4] == q && (q + rest)[4..] == rest;
  }

  /** Decoding undoes encoding. */
  lemma {:induction false} Base64RoundTrip(bs: seq<byte>)
    ensures Base64Decode(Base64Encode(bs)) == Some(bs)
    decreases |bs|
  {
    if |bs| == 1 {
      DecodeOneByteQuantum(bs[0]);
      assert EncodeOne(bs[0])[..4] == EncodeOne(bs[0]);
      assert [bs[0]] == bs;
    } else if |bs| == 2 {
      DecodeTwoByteQuantum(bs[0], bs[1]);
      assert EncodeTwo(bs[0], bs[1])[..4] == EncodeTwo(bs[0], bs[1]);
      assert [bs[0], bs[1]] == bs;
    } else if |bs| >= 3 {
      DecodeFullQuantum(bs[0], bs[1], bs[2]);
      Base64RoundTrip(bs[3..]);
      DecodeAfterFullQuantum(EncodeThree(bs[0], bs[1], bs[2]), Base64Encode(bs[3..]), [bs[0], bs[1], bs[2]], bs[3..]);
      assert [bs[0], bs[1], bs[2]] + bs[3..] == bs;
    }
  }

  // ---------------------------------------------------------------------------
  // The decision

  /** The JSON body and status of a response. */
  datatype Response = Response(status: int, error: string, message: Option<string>)

  /** Exactly one of: the request goes on to the route, or it is answered. */
  datatype Decision = Next | Respond(response: Response)

  const MISSING_SIGNATURE := Response(401, "[HMAC] Unauthorized", Some("Missing HMAC signature"))
  const SECRET_NOT_CONFIGURED := Response(500, "Server configuration error", None)
  const RAW_BODY_MISSING := Response(500, "Server configuration error", Some("Raw body missing for HMAC verification"))
  const INVALID_SIGNATURE := Response(401, "Unauthorized", Some("Invalid HMAC signature"))
  const INTERNAL_ERROR := Response(500, "Internal server error", None)

  /** JavaScript truthiness of an optional string: present and not empty. */
  predicate Truthy(v: Option<string>) {
    v.Some? && v.value != ""
  }

  /** `createHmac('sha256', secret).update(rawBody, 'utf8').digest('base64')`. */
  function ExpectedSignature(hmacSha256: (seq<byte>, seq<byte>) -> seq<byte>, secret: string, rawBody: string): (sig: string)
    ensures IsAscii(sig)
  {
    Base64Encode(hmacSha256(Utf8Encode(secret), Utf8Encode(rawBody)))
  }

  /** `crypto.timingSafeEqual(a, b)`: throws when the byte lengths differ. */
  function TimingSafeEqual(a: seq<byte>, b: seq<byte>): (r: Result<bool, string>)
    ensures r.Err? <==> |a| != |b|
    ensures r.Ok? ==> (r.value <==> a == b)
  {
    if |a| != |b| then Err("Input buffers must have the same byte length") else Ok(a == b)
  }

  /** `verifyShopifyWebhook(req, res, next)`: the header is checked before the
      secret, the secret before the body, and only then the signature. */
  function VerifyShopifyWebhook(hmacSha256: (seq<byte>, seq<byte>) -> seq<byte>,
                                hmacHeader: Option<string>, secret: Option<string>, rawBody: Option<string>): (d: Decision)
    ensures !Truthy(hmacHeader) ==> d == Respond(MISSING_SIGNATURE)
    ensures Truthy(hmacHeader) && !Truthy(secret) ==> d == Respond(SECRET_NOT_CONFIGURED)
    ensures Truthy(hmacHeader) && Truthy(secret) && !Truthy(rawBody) ==> d == Respond(RAW_BODY_MISSING)
    ensures d.Respond? ==> d.response in {MISSING_SIGNATURE, SECRET_NOT_CONFIGURED, RAW_BODY_MISSING, INVALID_SIGNATURE, INTERNAL_ERROR}
  {
    if !Truthy(hmacHeader) then Respond(MISSING_SIGNATURE)
    else if !Truthy(secret) then Respond(SECRET_NOT_CONFIGURED)
    else if !Truthy(rawBody) then Respond(RAW_BODY_MISSING)
    else
      var generatedHash := ExpectedSignature(hmacSha256, secret.value, rawBody.value);
      Decide(TimingSafeEqual(Utf8Encode(hmacHeader.value), Utf8Encode(generatedHash)))
  }

  /** The last step of the gate: a thrown comparison is caught and answered 500,
      a mismatch is answered 401, and a match lets the request through. */
  function Decide(comparison: Result<bool, string>): (d: Decision)
    ensures d == Next <==> comparison == Ok(true)
    ensures d == Respond(INTERNAL_ERROR) <==> comparison.Err?
    ensures d == Respond(INVALID_SIGNATURE) <==> comparison == Ok(false)
  {
    match comparison
    case Err(_) => Respond(INTERNAL_ERROR)  // the catch block
    case Ok(isValid) => if isValid then Next else Respond(INVALID_SIGNATURE)
  }

  /** `timingSafeEqual` on the bytes of any header and an ASCII signature:
      it throws exactly on a byte-length mismatch and otherwise compares the strings. */
  lemma CompareWithAscii(hmacHeader: string, expected: string)
    requires IsAscii(expected)
    ensures TimingSafeEqual(Utf8Encode(hmacHeader), Utf8Encode(expected)).Err? <==> |Utf8Encode(hmacHeader)| != |expected|
    ensures TimingSafeEqual(Utf8Encode(hmacHeader), Utf8Encode(expected)) == Ok(true) <==> hmacHeader == expected
  {
    AsciiEncodedLength(expected);
    Utf8MatchesAscii(hmacHeader, expected);
  }

  /** Past the three presence checks, the decision is the comparison's. */
  lemma DecisionOfComparison(hmacSha256: (seq<byte>, seq<byte>) -> seq<byte>, hmacHeader: string, secret: string, rawBody: string)
    requires hmacHeader != "" && secret != "" && rawBody != ""
    ensures VerifyShopifyWebhook(hmacSha256, Some(hmacHeader), Some(secret), Some(rawBody))
      == Decide(TimingSafeEqual(Utf8Encode(hmacHeader), Utf8Encode(ExpectedSignature(hmacSha256, secret, rawBody))))
  {
  }

  /** The request goes on exactly when the header, secret and body are all
      present and the header is the base64 HMAC of the body under the secret. */
  lemma AcceptsExactlyTheExpectedSignature(hmacSha256: (seq<byte>, seq<byte>) -> seq<byte>,
                                           hmacHeader: Option<string>, secret: Option<string>, rawBody: Option<string>)
    ensures VerifyShopifyWebhook(hmacSha256, hmacHeader, secret, rawBody) == Next <==>
      && Truthy(hmacHeader) && Truthy(secret) && Truthy(rawBody)
      && hmacHeader.value == ExpectedSignature(hmacSha256, secret.value, rawBody.value)
  {
    if Truthy(hmacHeader) && Truthy(secret) && Truthy(rawBody) {
      CompareWithAscii(hmacHeader.value, ExpectedSignature(hmacSha256, secret.value, rawBody.value));
      DecisionOfComparison(hmacSha256, hmacHeader.value, secret.value, rawBody.value);
    }
  }

  /** A wrong header of the digest's byte length is refused with 401. */
  lemma WrongSignatureOfRightLengthIsUnauthorized(hmacSha256: (seq<byte>, seq<byte>) -> seq<byte>,
                                                  hmacHeader: string, secret: string, rawBody: string)
    requires hmacHeader != "" && secret != "" && rawBody != ""
    requires |Utf8Encode(hmacHeader)| == |ExpectedSignature(hmacSha256, secret, rawBody)|
    requires hmacHeader != ExpectedSignature(hmacSha256, secret, rawBody)
    ensures VerifyShopifyWebhook(hmacSha256, Some(hmacHeader), Some(secret), Some(rawBody)) == Respond(INVALID_SIGNATURE)
  {
    CompareWithAscii(hmacHeader, ExpectedSignature(hmacSha256, secret, rawBody));
    DecisionOfComparison(hmacSha256, hmacHeader, secret, rawBody);
  }

  /** A header whose byte length differs from the digest's makes
      `timingSafeEqual` throw, which the catch turns into 500, not 401. */
  lemma WrongLengthIsInternalError(hmacSha256: (seq<byte>, seq<byte>) -> seq<byte>,
                                   hmacHeader: string, secret: string, rawBody: string)
    requires hmacHeader != "" && secret != "" && rawBody != ""
    requires |Utf8Encode(hmacHeader)| != |ExpectedSignature(hmacSha256, secret, rawBody)|
    ensures VerifyShopifyWebhook(hmacSha256, Some(hmacHeader), Some(secret), Some(rawBody)) == Respond(INTERNAL_ERROR)
  {
    CompareWithAscii(hmacHeader, ExpectedSignature(hmacSha256, secret, rawBody));
    DecisionOfComparison(hmacSha256, hmacHeader, secret, rawBody);
  }

  /** HMAC-SHA256 digests are 32 bytes long. */
  ghost predicate DigestsAre32Bytes(hmacSha256: (seq<byte>, seq<byte>) -> seq<byte>) {
    forall key, message :: |hmacSha256(key, message)| == 32
  }

  /** With a 32-byte digest the signature is 44 characters, so any ASCII
      header of another length gets 500. */
  lemma AsciiHeaderNot44LongIsInternalError(hmacSha256: (seq<byte>, seq<byte>) -> seq<byte>,
                                            hmacHeader: string, secret: string, rawBody: string)
    requires DigestsAre32Bytes(hmacSha256) && IsAscii(hmacHeader)
    requires hmacHeader != "" && secret != "" && rawBody != "" && |hmacHeader| != 44
    ensures |ExpectedSignature(hmacSha256, secret, rawBody)| == 44
    ensures VerifyShopifyWebhook(hmacSha256, Some(hmacHeader), Some(secret), Some(rawBody)) == Respond(INTERNAL_ERROR)
  {
    assert |hmacSha256(Utf8Encode(secret), Utf8Encode(rawBody))| == 32;
    AsciiEncodedLength(hmacHeader);
    WrongLengthIsInternalError(hmacSha256, hmacHeader, secret, rawBody);
  }
}
