/** What the service reads from the headers of a signed request, and how it checks the signature. */
module Auth {
  import opened Prelude
  import opened Text
  import opened Base64Url
  import opened Crypto
  import opened Canonical

  datatype ErrorCode =
    | BadRequest | ForbiddenNetwork | UnknownDevice | DeviceRevoked | TimestampOutOfWindow
    | ReplayedNonce | InvalidSignature | RateLimited
    | PairingDisabled | InvalidCode | PairingExpired | PairingDenied | PairingTimeout
    | NoSession | UnlockFailed | InternalError

  const HEADER_VERSION := "X-WU-Version"
  const HEADER_DEVICE := "X-WU-Device"
  const HEADER_TIMESTAMP := "X-WU-Timestamp"
  const HEADER_NONCE := "X-WU-Nonce"
  const HEADER_SIGNATURE := "X-WU-Signature"

  type HeaderMap = map<string, string>

  datatype SignedRequestHeaders = SignedRequestHeaders(
    version: nat, deviceId: string, timestamp: nat, nonce: string, signature: Bytes)

  /** A value of `n` characters that decodes to `bytes` bytes. */
  predicate DecodesTo(text: string, n: nat, bytes: nat)
  {
    |text| == n && OfLength(Decode(text), Some(bytes)).Some?
  }

  function Need(headers: HeaderMap, name: string): Option<string>
  {
    if name in headers then Some(Trim(headers[name])) else None
  }

  predicate WellFormedTimestamp(raw: string)
  {
    raw != "" && AllDigits(raw) && !(|raw| > 1 && raw[0] == '0')
  }

  /** The longest text of digits that `int` converts; it raises for a longer one. */
  const MAX_INT_DIGITS := 4300

  predicate TooLong(headers: HeaderMap, name: string)
  {
    var value := Need(headers, name);
    value.Some? && AllDigits(value.value) && |value.value| > MAX_INT_DIGITS
  }

  /** Pure shape checking. A failure is a `bad_request`, but for a number too long to convert. */
  function ParseAuthHeaders(headers: HeaderMap): (r: Result<SignedRequestHeaders, ErrorCode>)
    ensures r.Err? ==>
              r.error == BadRequest
              || (r.error == InternalError && (TooLong(headers, HEADER_VERSION) || TooLong(headers, HEADER_TIMESTAMP)))
    ensures TooLong(headers, HEADER_VERSION) ==> r == Err(InternalError)
    ensures r.Ok? ==> !TooLong(headers, HEADER_VERSION) && !TooLong(headers, HEADER_TIMESTAMP)
  {
    match Need(headers, HEADER_VERSION) {
      case None => Err(BadRequest)
      case Some(rawVersion) =>
        if rawVersion == "" || !AllDigits(rawVersion) then Err(BadRequest)
        else if |rawVersion| > MAX_INT_DIGITS then Err(InternalError)
        else if ParseNat(rawVersion) != 1 then Err(BadRequest)
        else match Need(headers, HEADER_DEVICE) {
          case None => Err(BadRequest)
          case Some(deviceId) =>
            if !DecodesTo(deviceId, DEVICE_ID_CHARS, 16) then Err(BadRequest)
            else match Need(headers, HEADER_TIMESTAMP) {
              case None => Err(BadRequest)
              case Some(rawTs) =>
                if !WellFormedTimestamp(rawTs) then Err(BadRequest)
                else if |rawTs| > MAX_INT_DIGITS then Err(InternalError)
                else match Need(headers, HEADER_NONCE) {
                  case None => Err(BadRequest)
                  case Some(nonce) =>
                    if !DecodesTo(nonce, NONCE_CHARS, NONCE_BYTES) then Err(BadRequest)
                    else match Need(headers, HEADER_SIGNATURE) {
                      case None => Err(BadRequest)
                      case Some(rawSig) =>
                        match OfLength(Decode(rawSig), Some(SIGNATURE_BYTES)) {
                          case None => Err(BadRequest)
                          case Some(signature) =>
                            Ok(SignedRequestHeaders(1, deviceId, ParseNat(rawTs), nonce, signature))
                        }
                    }
                }
            }
        }
    }
  }

  /** Accepted headers name one timestamp and one nonce each: no second spelling reaches the signature. */
  lemma AcceptedSpellings(headers: HeaderMap)
    requires ParseAuthHeaders(headers).Ok?
    ensures var h := ParseAuthHeaders(headers).value;
      && Need(headers, HEADER_TIMESTAMP) == Some(Dec(h.timestamp))
      && Need(headers, HEADER_NONCE) == Some(h.nonce) && |h.nonce| == NONCE_CHARS
      && Need(headers, HEADER_SIGNATURE) == Some(Encode(h.signature)) && |h.signature| == SIGNATURE_BYTES
  {
    var h := ParseAuthHeaders(headers).value;
    var rawTs := Need(headers, HEADER_TIMESTAMP).value;
    DecParse(rawTs);
    DecodeIsInverse(Need(headers, HEADER_SIGNATURE).value, h.signature);
  }

  /** The headers of version 1 that spell exactly these values. */
  ghost predicate SpellHeaders(headers: HeaderMap, h: SignedRequestHeaders)
  {
    && h.version == 1 && SpellVersion(headers)
    && Need(headers, HEADER_DEVICE) == Some(h.deviceId) && (exists id: Bytes :: |id| == 16 && Encode(id) == h.deviceId)
    && Need(headers, HEADER_TIMESTAMP) == Some(Dec(h.timestamp)) && |Dec(h.timestamp)| <= MAX_INT_DIGITS
    && Need(headers, HEADER_NONCE) == Some(h.nonce) && (exists n: Bytes :: |n| == NONCE_BYTES && Encode(n) == h.nonce)
    && Need(headers, HEADER_SIGNATURE) == Some(Encode(h.signature)) && |h.signature| == SIGNATURE_BYTES
  }

  predicate SpellVersion(headers: HeaderMap)
  {
    var v := Need(headers, HEADER_VERSION);
    v.Some? && v.value != "" && AllDigits(v.value) && |v.value| <= MAX_INT_DIGITS && ParseNat(v.value) == 1
  }

  lemma DecodesExactly(text: string, n: nat, bytes: nat)
    requires 16 == bytes && n == 22
    ensures DecodesTo(text, n, bytes) <==> exists b: Bytes :: |b| == bytes && Encode(b) == text
  {
    if b: Bytes :| |b| == bytes && Encode(b) == text {
      EncodeLength(b);
      DecodeIsInverse(text, b);
    }
    if DecodesTo(text, n, bytes) { DecodeIsInverse(text, Decode(text).value); }
  }

  lemma TimestampExactly(raw: string, n: nat)
    ensures WellFormedTimestamp(raw) && ParseNat(raw) == n <==> raw == Dec(n)
  {
    ParseDec(n);
    if WellFormedTimestamp(raw) { DecParse(raw); }
  }

  lemma SignatureExactly(raw: string, signature: Bytes)
    ensures OfLength(Decode(raw), Some(SIGNATURE_BYTES)) == Some(signature) <==>
              raw == Encode(signature) && |signature| == SIGNATURE_BYTES
  {
    DecodeIsInverse(raw, signature);
  }

  /** What is accepted, in terms of the parts. */
  lemma ParseParts(headers: HeaderMap, h: SignedRequestHeaders)
    ensures ParseAuthHeaders(headers) == Ok(h) <==>
              && h.version == 1 && SpellVersion(headers)
              && Need(headers, HEADER_DEVICE) == Some(h.deviceId) && DecodesTo(h.deviceId, DEVICE_ID_CHARS, 16)
              && Need(headers, HEADER_TIMESTAMP).Some?
              && var rawTs := Need(headers, HEADER_TIMESTAMP).value;
              && WellFormedTimestamp(rawTs) && ParseNat(rawTs) == h.timestamp && |rawTs| <= MAX_INT_DIGITS
              && Need(headers, HEADER_NONCE) == Some(h.nonce) && DecodesTo(h.nonce, NONCE_CHARS, NONCE_BYTES)
              && Need(headers, HEADER_SIGNATURE).Some?
              && OfLength(Decode(Need(headers, HEADER_SIGNATURE).value), Some(SIGNATURE_BYTES)) == Some(h.signature)
  {
    hide Need, DecodesTo, Decode, OfLength, ParseNat;
  }

  /** Headers are accepted exactly when they spell what is read from them. */
  lemma ParseExactly(headers: HeaderMap, h: SignedRequestHeaders)
    ensures ParseAuthHeaders(headers) == Ok(h) <==> SpellHeaders(headers, h)
  {
    ParseParts(headers, h);
    hide ParseAuthHeaders, Need, Decode, Encode, OfLength, Dec, ParseNat, DecodesTo, WellFormedTimestamp;
    DecodesExactly(h.deviceId, DEVICE_ID_CHARS, 16);
    DecodesExactly(h.nonce, NONCE_CHARS, NONCE_BYTES);
    if Need(headers, HEADER_TIMESTAMP).Some? { TimestampExactly(Need(headers, HEADER_TIMESTAMP).value, h.timestamp); }
    if Need(headers, HEADER_SIGNATURE).Some? { SignatureExactly(Need(headers, HEADER_SIGNATURE).value, h.signature); }
  }

  /** Conversion raises exactly for a long version, or a long timestamp behind a good version and device. */
  lemma ParseRaisesExactly(headers: HeaderMap)
    ensures ParseAuthHeaders(headers) == Err(InternalError) <==>
              || TooLong(headers, HEADER_VERSION)
              || (&& SpellVersion(headers) && TooLong(headers, HEADER_TIMESTAMP)
                  && Need(headers, HEADER_TIMESTAMP).value[0] != '0'
                  && Need(headers, HEADER_DEVICE).Some?
                  && exists id: Bytes :: |id| == 16 && Encode(id) == Need(headers, HEADER_DEVICE).value)
  {
    if Need(headers, HEADER_DEVICE).Some? { DecodesExactly(Need(headers, HEADER_DEVICE).value, DEVICE_ID_CHARS, 16); }
    hide Need, DecodesTo, Decode, Encode, OfLength, ParseNat;
  }

  function Abs(n: int): nat { if n < 0 then -n else n }

  /** The freshness window, inclusive on both sides. */
  predicate Fresh(timestamp: int, now: int, skew: nat) { Abs(now - timestamp) <= skew }

  /** The request that the service rebuilds from what it received. */
  function Rebuilt(
    p: Primitives, httpMethod: string, path: string, h: SignedRequestHeaders, body: Bytes, deviceId: string,
    serverFp: string)
    : Request
  {
    Request(httpMethod, path, h.timestamp, h.nonce, Sha256B64u(p, body), deviceId, serverFp)
  }

  /** Verification of a request under the device's key. A field that cannot be framed is an internal error. */
  function VerifyRequest(
    p: Primitives, pubkey: Bytes, httpMethod: string, path: string, h: SignedRequestHeaders,
    body: Bytes, deviceId: string, serverFp: string)
    : Result<(), ErrorCode>
  {
    match ServiceRequest(Rebuilt(p, httpMethod, path, h, body, deviceId, serverFp))
    case Err(_) => Err(InternalError)
    case Ok(message) => if p.verify(pubkey, message, h.signature) then Ok(()) else Err(InvalidSignature)
  }
}
