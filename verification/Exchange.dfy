/** The phone's half of a signed exchange, and the proof that honest parties understand each other. */
module Exchange {
  import opened Prelude
  import opened Text
  import opened Base64Url
  import opened Canonical
  import opened Crypto
  import opened Auth
  import opened Store
  import opened Admission
  import AdmissionTheorems
  import opened Middleware
  import opened Unicode
  import opened Json

  /** What the phone stores about a paired PC. */
  datatype LinkedPC = LinkedPC(deviceId: string, serverFp: string, serverPubKey: string)

  /** A call the phone makes; a payload is sent only with POST. */
  datatype Call = Call(httpMethod: string, path: string, bodyText: Bytes, timestamp: nat, nonce: Bytes)

  function SentBody(c: Call): Bytes { if c.httpMethod == "POST" then c.bodyText else [] }

  function ClientMessage(p: Primitives, pc: LinkedPC, c: Call): Canonical.Request
  {
    Request(c.httpMethod, c.path, c.timestamp, Encode(c.nonce), Sha256B64u(p, c.bodyText), pc.deviceId, pc.serverFp)
  }

  /** The headers of a signed call; None where framing the message throws. */
  function SignedHeaders(p: Primitives, seed: Bytes, pc: LinkedPC, c: Call): Option<HeaderMap>
  {
    match PhoneRequest(ClientMessage(p, pc, c))
    case Err(_) => None
    case Ok(message) =>
      Some(map[HEADER_VERSION := "1",
               HEADER_DEVICE := pc.deviceId,
               HEADER_TIMESTAMP := Dec(c.timestamp),
               HEADER_NONCE := Encode(c.nonce),
               HEADER_SIGNATURE := Encode(p.sign(seed, message))])
  }

  datatype ClientError = UnsignedResponse | MalformedSignature | BadServerSignature | Unframeable

  /** A text without lone surrogates: what reading bytes as UTF-8 gives. */
  type ReadText = t: UText | Encodable(t) witness []

  function TextBytes(t: ReadText): Bytes
  {
    EncodesExactly(t);
    Utf8(t).value
  }

  const BYTE_ORDER_MARK: CodePoint := 0xFEFF

  /**
   The phone's reader of a body is right on what UTF-8 writes; it may drop a byte-order mark, and replace
   what is malformed.
   */
  ghost predicate ReadsUtf8(textOf: Bytes -> ReadText)
  {
    forall t: ReadText :: t == [] || t[0] != BYTE_ORDER_MARK ==> textOf(TextBytes(t)) == t
  }

  /** The digest of the text of a body, which the phone turns back into bytes. */
  function TextDigest(p: Primitives, textOf: Bytes -> ReadText, r: HttpResponse): string
  {
    Sha256B64u(p, TextBytes(textOf(r.body)))
  }

  /** The phone's check of a response against the pinned key and the nonce it sent. */
  function VerifyServerSignature(
      p: Primitives, textOf: Bytes -> ReadText, r: HttpResponse, nonceEcho: string, serverPubKey: string)
    : Result<(), ClientError>
  {
    if r.signature.None? || r.signature.value == "" then Err(UnsignedResponse)
    else
      var signature := OfLength(Decode(r.signature.value), Some(SIGNATURE_BYTES));
      var key := OfLength(Decode(serverPubKey), Some(PUBKEY_BYTES));
      if signature.None? || key.None? then Err(MalformedSignature)
      else match PhoneResponse(Response(r.status, nonceEcho, TextDigest(p, textOf, r), Fingerprint(p, key.value)))
        case Err(_) => Err(Unframeable)
        case Ok(signed) => if p.verify(key.value, signed, signature.value) then Ok(()) else Err(BadServerSignature)
  }

  // ---- Plain texts survive headers and framing ----

  /** Visible ASCII without spaces: base64url, digits and paths. */
  predicate Visible(s: string) { forall i :: 0 <= i < |s| ==> 0x20 < s[i] as int < 0x7F }

  lemma VisibleFits(s: string)
    requires Visible(s)
    ensures NewlineFree(s) && Ascii(s) && Trim(s) == s
  {
    forall i | 0 <= i < |s| ensures !IsSpace(s[i]) && s[i] != '\n' && s[i] != '\r' {}
    TrimNothing(s);
  }

  lemma SymbolsVisible(s: string)
    requires AllSymbols(s)
    ensures Visible(s)
  {
  }

  lemma {:induction false} JoinAscii(lines: seq<string>)
    requires forall i :: 0 <= i < |lines| ==> Ascii(lines[i])
    ensures Ascii(Join(lines, "\n"))
  {
    if |lines| > 1 { JoinAscii(lines[1..]); }
  }

  lemma UpperVisible(s: string)
    requires Visible(s)
    ensures Visible(Upper(s))
  {
  }

  lemma StrVisible(n: int)
    ensures Visible(Str(n))
  {
  }

  lemma VisibleLines(lines: seq<string>)
    requires forall i :: 0 <= i < |lines| ==> Visible(lines[i])
    ensures Guarded(lines).Ok? && Encoded(Guarded(lines)) == Guarded(lines)
  {
    forall i | 0 <= i < |lines| ensures NewlineFree(lines[i]) && Ascii(lines[i]) { VisibleFits(lines[i]); }
    JoinAscii(lines);
  }

  lemma RequestFramed(r: Canonical.Request)
    requires Visible(r.httpMethod) && Visible(r.path) && Visible(r.nonce)
    requires Visible(r.bodySha256) && Visible(r.deviceId) && Visible(r.serverFp)
    ensures PhoneRequest(r).Ok? && ServiceRequest(r) == PhoneRequest(r)
  {
    UpperVisible(r.httpMethod);
    StrVisible(r.timestamp);
    VisibleLines(RequestLines(r));
  }

  lemma ResponseFramed(r: Canonical.Response)
    requires Visible(r.nonceEcho) && Visible(r.bodySha256) && Visible(r.serverFp)
    ensures PhoneResponse(r).Ok? && ServiceResponse(r) == PhoneResponse(r)
  {
    StrVisible(r.status);
    VisibleLines(ResponseLines(r));
  }

  lemma EncodedDecodes(b: Bytes, n: nat)
    requires |b| == n
    ensures OfLength(Decode(Encode(b)), Some(n)) == Some(b)
  {
    DecodeIsInverse(Encode(b), b);
  }

  // ---- Requests ----

  /** The last second that a JavaScript date can hold. */
  const LAST_SECOND: nat := 8_640_000_000_000

  /** A paired phone and the call it makes. */
  predicate Honest(p: Primitives, cfg: Config, seed: Bytes, pc: LinkedPC, c: Call)
  {
    && pc.deviceId == DeviceIdFor(p, p.publicKey(seed))
    && pc.serverFp == cfg.serverFp && Visible(pc.serverFp)
    && Visible(c.httpMethod) && Visible(c.path) && |c.nonce| == NONCE_BYTES && c.timestamp <= LAST_SECOND
  }

  lemma ClientMessageFramed(p: Primitives, cfg: Config, seed: Bytes, pc: LinkedPC, c: Call, body: Bytes)
    requires Sound(p) && Honest(p, cfg, seed, pc, c)
    ensures var m := ClientMessage(p, pc, c).(bodySha256 := Sha256B64u(p, body));
      PhoneRequest(m).Ok? && ServiceRequest(m) == PhoneRequest(m)
  {
    SymbolsVisible(Encode(c.nonce));
    SymbolsVisible(Sha256B64u(p, body));
    SymbolsVisible(pc.deviceId);
    RequestFramed(ClientMessage(p, pc, c).(bodySha256 := Sha256B64u(p, body)));
  }

  /** The service reads from the headers exactly what the phone put there. */
  lemma HeadersReadBack(p: Primitives, cfg: Config, seed: Bytes, pc: LinkedPC, c: Call)
    requires Sound(p) && Honest(p, cfg, seed, pc, c)
    ensures SignedHeaders(p, seed, pc, c).Some?
    ensures PhoneRequest(ClientMessage(p, pc, c)).Ok?
    ensures ParseAuthHeaders(SignedHeaders(p, seed, pc, c).value)
         == Ok(SignedRequestHeaders(
              1, pc.deviceId, c.timestamp, Encode(c.nonce),
              p.sign(seed, PhoneRequest(ClientMessage(p, pc, c)).value)))
  {
    ClientMessageFramed(p, cfg, seed, pc, c, c.bodyText);
    var signature := p.sign(seed, PhoneRequest(ClientMessage(p, pc, c)).value);
    DeviceIdWellFormed(p, p.publicKey(seed));
    assert DecodesTo(pc.deviceId, DEVICE_ID_CHARS, 16);
    HeadersNeeded(p, seed, pc, c);
    hide ClientMessage, Decode, Encode, Dec, Trim, DeviceIdFor, ParseAuthHeaders, PhoneRequest, Need;
    ParseGiven(SignedHeaders(p, seed, pc, c).value, pc.deviceId, c.timestamp, c.nonce, signature);
    hide SignedHeaders;
  }

  lemma DateDigits(timestamp: nat)
    requires timestamp <= LAST_SECOND
    ensures |Dec(timestamp)| <= 13
  {
    assert Pow10(13) == 10_000_000_000_000;
    DecLength(timestamp, 13);
  }

  lemma ParseWhen(
      h: HeaderMap, version: string, d: string, rawTs: string, nonce: string, rawSig: string, signature: Bytes)
    requires Need(h, HEADER_VERSION) == Some(version) && Need(h, HEADER_DEVICE) == Some(d)
    requires Need(h, HEADER_TIMESTAMP) == Some(rawTs) && Need(h, HEADER_NONCE) == Some(nonce)
    requires Need(h, HEADER_SIGNATURE) == Some(rawSig)
              && OfLength(Decode(rawSig), Some(SIGNATURE_BYTES)) == Some(signature)
    requires version != "" && AllDigits(version) && |version| <= MAX_INT_DIGITS && ParseNat(version) == 1
    requires DecodesTo(d, DEVICE_ID_CHARS, 16) && DecodesTo(nonce, NONCE_CHARS, NONCE_BYTES)
    requires WellFormedTimestamp(rawTs) && |rawTs| <= MAX_INT_DIGITS
    ensures ParseAuthHeaders(h) == Ok(SignedRequestHeaders(1, d, ParseNat(rawTs), nonce, signature))
  {
    hide Decode, Trim, Need, DecodesTo, OfLength, ParseNat;
  }

  lemma ParseGiven(h: HeaderMap, d: string, timestamp: nat, nonce: Bytes, signature: Bytes)
    requires timestamp <= LAST_SECOND && |nonce| == NONCE_BYTES && |signature| == SIGNATURE_BYTES
    requires DecodesTo(d, DEVICE_ID_CHARS, 16)
    requires Need(h, HEADER_VERSION) == Some("1") && Need(h, HEADER_DEVICE) == Some(d)
    requires Need(h, HEADER_TIMESTAMP) == Some(Dec(timestamp)) && Need(h, HEADER_NONCE) == Some(Encode(nonce))
    requires Need(h, HEADER_SIGNATURE) == Some(Encode(signature))
    ensures ParseAuthHeaders(h) == Ok(SignedRequestHeaders(1, d, timestamp, Encode(nonce), signature))
  {
    hide Decode, Encode, Dec, Trim, Need, ParseAuthHeaders, Pow10;
    EncodeLength(nonce);
    EncodedDecodes(nonce, NONCE_BYTES);
    EncodedDecodes(signature, SIGNATURE_BYTES);
    ParseDec(timestamp);
    DateDigits(timestamp);
    assert ParseNat("1") == 1 by { assert "1"[..0] == ""; }
    ParseWhen(h, "1", d, Dec(timestamp), Encode(nonce), Encode(signature), signature);
  }

  lemma HeadersNeeded(p: Primitives, seed: Bytes, pc: LinkedPC, c: Call)
    requires SignedHeaders(p, seed, pc, c).Some? && AllSymbols(pc.deviceId)
    ensures var h := SignedHeaders(p, seed, pc, c).value;
      && Need(h, HEADER_VERSION) == Some("1")
      && Need(h, HEADER_DEVICE) == Some(pc.deviceId)
      && Need(h, HEADER_TIMESTAMP) == Some(Dec(c.timestamp))
      && Need(h, HEADER_NONCE) == Some(Encode(c.nonce))
      && Need(h, HEADER_SIGNATURE) == Some(Encode(p.sign(seed, PhoneRequest(ClientMessage(p, pc, c)).value)))
  {
    var signature := p.sign(seed, PhoneRequest(ClientMessage(p, pc, c)).value);
    SymbolsVisible(pc.deviceId);
    SymbolsVisible(Encode(c.nonce));
    SymbolsVisible(Encode(signature));
    hide Trim;
    VisibleFits("1");
    VisibleFits(pc.deviceId);
    VisibleFits(Dec(c.timestamp));
    VisibleFits(Encode(c.nonce));
    VisibleFits(Encode(signature));
  }

  /** How the call arrives at the service. */
  function Arrived(p: Primitives, seed: Bytes, pc: LinkedPC, c: Call): Incoming
    requires SignedHeaders(p, seed, pc, c).Some?
  {
    Incoming(c.httpMethod, c.path, false, SignedHeaders(p, seed, pc, c).value, Some(|SentBody(c)|))
  }

  /** What the service rebuilds from a call is what the phone signed. */
  predicate Rebuilds(p: Primitives, cfg: Config, seed: Bytes, pc: LinkedPC, c: Call)
    requires SignedHeaders(p, seed, pc, c).Some?
  {
    var parsed := ParseAuthHeaders(SignedHeaders(p, seed, pc, c).value);
    parsed.Ok?
    && ServiceRequest(Rebuilt(p, c.httpMethod, c.path, parsed.value, SentBody(c), pc.deviceId, cfg.serverFp))
       == PhoneRequest(ClientMessage(p, pc, c))
  }

  /**
   The service rebuilds byte for byte what the phone signed exactly when the body it hashes is the
   body the phone hashed; a payload with any method but POST is signed and not sent.
   */
  lemma MessageRebuilt(p: Primitives, cfg: Config, seed: Bytes, pc: LinkedPC, c: Call)
    requires Sound(p) && Honest(p, cfg, seed, pc, c)
    ensures SignedHeaders(p, seed, pc, c).Some?
    ensures ParseAuthHeaders(SignedHeaders(p, seed, pc, c).value).Ok?
    ensures Rebuilds(p, cfg, seed, pc, c) <==> p.sha256(SentBody(c)) == p.sha256(c.bodyText)
  {
    HeadersReadBack(p, cfg, seed, pc, c);
    var h := ParseAuthHeaders(SignedHeaders(p, seed, pc, c).value).value;
    var sent, signed := Rebuilt(p, c.httpMethod, c.path, h, SentBody(c), pc.deviceId, cfg.serverFp),
        ClientMessage(p, pc, c);
    assert sent == signed.(bodySha256 := Sha256B64u(p, SentBody(c)));
    ClientMessageFramed(p, cfg, seed, pc, c, SentBody(c));
    if ServiceRequest(sent) == PhoneRequest(signed) {
      RequestReadsBack(sent);
      RequestReadsBack(signed);
      FromToDigits(p.sha256(SentBody(c)));
      FromToDigits(p.sha256(c.bodyText));
      ValuesSpell(ToDigits(p.sha256(SentBody(c))));
      ValuesSpell(ToDigits(p.sha256(c.bodyText)));
    }
  }

  /**
   That is so for every call that posts its payload or has none, and, if the digest tells payloads from
   nothing, for no other.
   */
  lemma RebuiltWhenSent(p: Primitives, cfg: Config, seed: Bytes, pc: LinkedPC, c: Call)
    requires Sound(p) && Honest(p, cfg, seed, pc, c)
    ensures SignedHeaders(p, seed, pc, c).Some?
    ensures c.httpMethod == "POST" || c.bodyText == [] ==> Rebuilds(p, cfg, seed, pc, c)
    ensures p.sha256([]) != p.sha256(c.bodyText) || c.bodyText == [] ==>
              (Rebuilds(p, cfg, seed, pc, c) <==> c.httpMethod == "POST" || c.bodyText == [])
  {
    MessageRebuilt(p, cfg, seed, pc, c);
    hide Rebuilds, SignedHeaders, ParseAuthHeaders, Honest, Sound;
  }

  /**
   An honest call is admitted exactly when nothing but the state of the service stands against it,
   and is never refused for its shape or its signature.
   */
  lemma HonestCallDecided(
    p: Primitives, cfg: Config, db: Db, seed: Bytes, pc: LinkedPC, c: Call, limiterOk: bool, now: int)
    requires Sound(p) && Honest(p, cfg, seed, pc, c) && p.sha256(SentBody(c)) == p.sha256(c.bodyText)
    requires pc.deviceId in db.devices ==>
               db.devices[pc.deviceId].deviceId == pc.deviceId && db.devices[pc.deviceId].pubkey == p.publicKey(seed)
    ensures SignedHeaders(p, seed, pc, c).Some?
    ensures var r := Decision(p, cfg, db, Arrived(p, seed, pc, c), limiterOk, now, SentBody(c));
      && (r.Ok? <==>
            && |SentBody(c)| <= cfg.maxBody
            && Active(db.devices, pc.deviceId)
            && limiterOk
            && Fresh(c.timestamp, now, cfg.skew)
            && (pc.deviceId, Encode(c.nonce)) !in db.nonces)
      && (r.Err? ==>
            || r.error in {UnknownDevice, DeviceRevoked, RateLimited, TimestampOutOfWindow, ReplayedNonce}
            || (r.error == BadRequest && |SentBody(c)| > cfg.maxBody))
  {
    HonestVerified(p, cfg, seed, pc, c);
    HeadersReadBack(p, cfg, seed, pc, c);
    hide SignedHeaders, ParseAuthHeaders, ClientMessage, Fresh, PhoneRequest, Sha256B64u, VerifyRequest, Sound;
  }

  /** The signature of an honest call verifies. */
  lemma HonestVerified(p: Primitives, cfg: Config, seed: Bytes, pc: LinkedPC, c: Call)
    requires Sound(p) && Honest(p, cfg, seed, pc, c) && p.sha256(SentBody(c)) == p.sha256(c.bodyText)
    ensures SignedHeaders(p, seed, pc, c).Some?
    ensures var parsed := ParseAuthHeaders(SignedHeaders(p, seed, pc, c).value);
            && parsed.Ok? && parsed.value.deviceId == pc.deviceId
            && VerifyRequest(p, p.publicKey(seed), c.httpMethod, c.path, parsed.value, SentBody(c), pc.deviceId,
                             cfg.serverFp) == Ok(())
  {
    MessageRebuilt(p, cfg, seed, pc, c);
    HeadersReadBack(p, cfg, seed, pc, c);
    hide SignedHeaders, ParseAuthHeaders, ClientMessage, Rebuilt, ServiceRequest, PhoneRequest, Sha256B64u;
  }

  /** Every honest call that is not too long is one that the tight runs of the replay theorem can use. */
  lemma HonestAcceptable(p: Primitives, cfg: Config, seed: Bytes, pc: LinkedPC, c: Call)
    requires Sound(p) && Honest(p, cfg, seed, pc, c) && p.sha256(SentBody(c)) == p.sha256(c.bodyText)
    requires |SentBody(c)| <= cfg.maxBody
    ensures SignedHeaders(p, seed, pc, c).Some?
    ensures var r := Arrived(p, seed, pc, c);
            && ParseAuthHeaders(r.headers).Ok?
            && AdmissionTheorems.Acceptable(p, cfg, r, ParseAuthHeaders(r.headers).value, p.publicKey(seed),
                SentBody(c))
  {
    MessageRebuilt(p, cfg, seed, pc, c);
    HeadersReadBack(p, cfg, seed, pc, c);
    hide SignedHeaders, ParseAuthHeaders, ClientMessage, Rebuilt, ServiceRequest, PhoneRequest, Sha256B64u;
  }

  // ---- Responses ----

  /** The echoed nonce is the one the phone sent, whatever became of the rest of the request. */
  lemma NonceEchoed(headers: HeaderMap, nonce: Bytes)
    requires |nonce| == NONCE_BYTES && HEADER_NONCE in headers && headers[HEADER_NONCE] == Encode(nonce)
    ensures ExtractNonceEcho(headers) == Encode(nonce)
  {
    SymbolsVisible(Encode(nonce));
    VisibleFits(Encode(nonce));
    EncodeLength(nonce);
    EncodedDecodes(nonce, NONCE_BYTES);
  }

  /** What the service can echo is a well-formed nonce or nothing, so every response can be signed. */
  lemma EchoVisible(headers: HeaderMap)
    ensures Visible(ExtractNonceEcho(headers))
    ensures ExtractNonceEcho(headers) == "" || |ExtractNonceEcho(headers)| == NONCE_CHARS
  {
    var echo := ExtractNonceEcho(headers);
    if echo != "" { SymbolsVisible(echo); }
  }

  /** No lone surrogate in what a reply has to say. */
  predicate Speakable(reply: Reply)
  {
    match reply
    case Success(data) => Sendable(data)
    case Failure(_, _, message) => Encodable(message)
  }

  lemma PayloadSendable(ts: int, reply: Reply)
    ensures Sendable(Payload(ts, reply)) <==> Speakable(reply)
  {
    var payload := Payload(ts, reply);
    assert payload.fields[2].1 == if reply.Success? then reply.data else payload.fields[2].1;
    if reply.Failure? {
      var error := payload.fields[2].1;
      assert error.fields[1].1 == String(reply.message) && error.fields[0].1 == String(Points(reply.code));
      assert Sendable(error) <==> Encodable(reply.message);
    }
  }

  lemma BodyExists(ts: int, reply: Reply)
    ensures Utf8(Render(Payload(ts, reply))).Some? <==> Speakable(reply)
  {
    PayloadSendable(ts, reply);
    RenderEncodable(Payload(ts, reply));
    EncodesExactly(Render(Payload(ts, reply)));
  }

  lemma ServerFramed(p: Primitives, seed: Bytes, headers: HeaderMap, status: nat, body: Bytes)
    ensures var m := ServerMessage(p, seed, headers, status, body);
            PhoneResponse(m).Ok? && ServiceResponse(m) == PhoneResponse(m)
  {
    EchoVisible(headers);
    var m := ServerMessage(p, seed, headers, status, body);
    SymbolsVisible(m.bodySha256);
    SymbolsVisible(m.serverFp);
    ResponseFramed(m);
  }

  /**
   An answer leaves signed, whichever layer gave it and whatever the request held, exactly when it
   holds no lone surrogate; then it carries the reply's status and, in UTF-8, the reply.
   */
  lemma SignedExactly(p: Primitives, seed: Bytes, headers: HeaderMap, ts: int, reply: Reply)
    ensures var r := Enveloped(p, seed, headers, ts, reply);
            && (r.signature.Some? <==> Speakable(reply))
            && (r.signature.Some? ==>
                  r.status == StatusOf(reply) && ReadUtf8(r.body) == Some(Render(Payload(ts, reply))))
  {
    hide Speakable, Render, Payload, Utf8, ServiceResponse, ServerMessage, PhoneResponse, Encode;
    BodyExists(ts, reply);
    var text := Render(Payload(ts, reply));
    if Utf8(text).Some? {
      EncodesExactly(text);
      Utf8ReadsBack(text);
      ServerFramed(p, seed, headers, StatusOf(reply), Utf8(text).value);
    }
  }

  /** A rendered payload begins with a brace, so that the phone's reader drops nothing. */
  lemma PayloadReadBack(textOf: Bytes -> ReadText, ts: int, reply: Reply)
    requires ReadsUtf8(textOf) && Utf8(Render(Payload(ts, reply))).Some?
    ensures TextBytes(textOf(Utf8(Render(Payload(ts, reply))).value)) == Utf8(Render(Payload(ts, reply))).value
  {
    hide Payload, Render, Utf8;
    var text := Render(Payload(ts, reply));
    assert text != [] && text[0] != BYTE_ORDER_MARK by { BraceFirst(ts, reply); }
    EncodesExactly(text);
    var read: ReadText := text;
    assert textOf(TextBytes(read)) == read;
  }

  lemma BraceFirst(ts: int, reply: Reply)
    ensures Render(Payload(ts, reply)) != [] && Render(Payload(ts, reply))[0] == '{' as int
  {
    var payload := Payload(ts, reply);
    hide RenderFields, Payload;
    assert payload.Obj? by { PayloadObject(ts, reply); }
    assert Render(payload) == Points("{") + RenderFields(payload, 0) + Points("}");
    assert Points("{")[0] == '{' as int;
  }

  lemma PayloadObject(ts: int, reply: Reply)
    ensures Payload(ts, reply).Obj?
  {
  }

  /** The phone's verdict on the paired service's answer to its own call, whichever layer gave it. */
  lemma ResponseAccepted(
      p: Primitives, textOf: Bytes -> ReadText, serverSeed: Bytes, serverPubKey: string, headers: HeaderMap,
      nonce: Bytes, ts: int, reply: Reply)
    requires Sound(p) && ReadsUtf8(textOf) && serverPubKey == Encode(p.publicKey(serverSeed))
    requires |nonce| == NONCE_BYTES && HEADER_NONCE in headers && headers[HEADER_NONCE] == Encode(nonce)
    ensures VerifyServerSignature(p, textOf, Enveloped(p, serverSeed, headers, ts, reply), Encode(nonce), serverPubKey)
         == if Speakable(reply) then Ok(()) else Err(UnsignedResponse)
  {
    hide Speakable, Render, Payload, Utf8, ServiceResponse, PhoneResponse, Decode, Encode, ExtractNonceEcho;
    BodyExists(ts, reply);
    NonceEchoed(headers, nonce);
    var text := Render(Payload(ts, reply));
    if Utf8(text).Some? {
      PayloadReadBack(textOf, ts, reply);
      var m := ServerMessage(p, serverSeed, headers, StatusOf(reply), Utf8(text).value);
      ServerFramed(p, serverSeed, headers, StatusOf(reply), Utf8(text).value);
      var signature := p.sign(serverSeed, ServiceResponse(m).value);
      EncodedDecodes(signature, SIGNATURE_BYTES);
      EncodedDecodes(p.publicKey(serverSeed), PUBKEY_BYTES);
      EncodeLength(signature);
    }
  }

  /** A response that the phone accepts was signed for this nonce, status and text. */
  lemma AcceptedMeansSigned(
      p: Primitives, textOf: Bytes -> ReadText, r: HttpResponse, nonceEcho: string, serverPubKey: string)
    requires VerifyServerSignature(p, textOf, r, nonceEcho, serverPubKey) == Ok(())
    ensures r.signature.Some? && Decode(r.signature.value).Some? && Decode(serverPubKey).Some?
    ensures exists message: string ::
      && p.verify(Decode(serverPubKey).value, message, Decode(r.signature.value).value)
      && ReadResponse(message)
         == Some(Response(r.status, nonceEcho, TextDigest(p, textOf, r), Fingerprint(p, Decode(serverPubKey).value)))
  {
    var key := Decode(serverPubKey).value;
    var m := Response(r.status, nonceEcho, TextDigest(p, textOf, r), Fingerprint(p, key));
    ResponseReadsBack(m);
    assert p.verify(key, PhoneResponse(m).value, Decode(r.signature.value).value);
  }
}
