/** The layers around the endpoints: authentication of requests and signing of responses. */
module Middleware {
  import opened Prelude
  import opened Text
  import opened Base64Url
  import opened Canonical
  import opened Crypto
  import opened Auth
  import opened Store
  import opened RateLimit
  import opened Admission
  import opened Unicode
  import opened Json

  /** The verdict on a request that meets no interference, with the tables it leaves. */
  function Decision(p: Primitives, cfg: Config, db: Db, r: Incoming, limiterOk: bool, now: int, body: Bytes)
    : Result<Device, ErrorCode>
  {
    match Gate(cfg, db, r, limiterOk, now)
    case Err(e) => Err(e)
    case Ok(f) =>
      match Verdict(p, cfg, db, f, body)
      case Err(e) => Err(e)
      case Ok(_) => Ok(f.device)
  }

  /** The request gets as far as the device's bucket. */
  predicate AsksLimiter(cfg: Config, db: Db, r: Incoming, now: int)
  {
    Gate(cfg, db, r, false, now) == Err(RateLimited)
  }

  function TablesAfter(p: Primitives, cfg: Config, db: Db, r: Incoming, limiterOk: bool, now: int, body: Bytes): Db
  {
    match Gate(cfg, db, r, limiterOk, now)
    case Err(_) => db
    case Ok(f) =>
      if Verdict(p, cfg, db, f, body).Ok? then Touch(Spend(cfg, db, f), f.device.deviceId, f.now) else db
  }

  /**
   The authentication layer on one request, without interference between its suspension points.
   `now` is the wall clock, `monotonic` the limiter's.
   */
  method AuthMiddleware(
    p: Primitives, cfg: Config, store: Store, limiter: RateLimiter,
    r: Incoming, body: Bytes, now: int, monotonic: real)
    returns (outcome: Result<Device, ErrorCode>, ghost limiterOk: bool, ghost turn: Option<Turn>)
    modifies store`devices, store`nonces, limiter
    ensures outcome == Decision(p, cfg, old(store.Tables()), r, limiterOk, now, body)
    ensures store.Tables() == TablesAfter(p, cfg, old(store.Tables()), r, limiterOk, now, body)
    ensures turn.Some? <==> AsksLimiter(cfg, old(store.Tables()), r, now)
    ensures turn.None? ==> limiter.buckets == old(limiter.buckets)
    ensures turn.Some? ==>
      && turn.value.key == "dev:" + old(store.devices)[ParseAuthHeaders(r.headers).value.deviceId].deviceId
      && turn.value.cost == 1.0 && turn.value.now == monotonic
      && Legal(limiter.limits, old(limiter.buckets), turn.value)
      && limiter.buckets == After(limiter.limits, turn.value)
      && (limiterOk <==> Admits(limiter.limits, turn.value))
  {
    hide ParseAuthHeaders, VerifyRequest, Fresh, Legal, After, Admits;
    limiterOk, turn := true, None;
    if r.hasQuery { return Err(BadRequest), true, None; }
    var parsed := ParseAuthHeaders(r.headers);
    if parsed.Err? { return Err(parsed.error), true, None; }
    var headers := parsed.value;
    if r.contentLength.Some? && r.contentLength.value > cfg.maxBody { return Err(BadRequest), true, None; }

    var device := store.GetDevice(headers.deviceId);
    if device.None? { return Err(UnknownDevice), true, None; }
    if device.value.revokedAt.Some? { return Err(DeviceRevoked), true, None; }

    ghost var t;
    var allowed;
    allowed, t := limiter.Allow("dev:" + device.value.deviceId, 1.0, monotonic);
    limiterOk, turn := allowed, Some(t);
    if !allowed { return Err(RateLimited), limiterOk, turn; }
    if !Fresh(headers.timestamp, now, cfg.skew) { return Err(TimestampOutOfWindow), limiterOk, turn; }

    if |body| > cfg.maxBody { return Err(BadRequest), limiterOk, turn; }
    var verified := VerifyRequest(
      p, device.value.pubkey, r.httpMethod, r.path, headers, body, device.value.deviceId, cfg.serverFp);
    if verified.Err? { return Err(verified.error), limiterOk, turn; }
    var unseen := store.ConsumeNonce(device.value.deviceId, headers.nonce, now + 2 * cfg.skew);
    if !unseen { return Err(ReplayedNonce), limiterOk, turn; }
    store.TouchDevice(device.value.deviceId, now);
    return Ok(device.value), limiterOk, turn;
  }

  // ---- Responses ----

  /** The nonce to echo: the request's header when it is well formed, else nothing. */
  function ExtractNonceEcho(headers: HeaderMap): string
  {
    var value := Trim(if HEADER_NONCE in headers then headers[HEADER_NONCE] else "");
    if DecodesTo(value, NONCE_CHARS, NONCE_BYTES) then value else ""
  }

  /** A nonce is echoed exactly when the header, trimmed, spells one. */
  lemma EchoExactly(headers: HeaderMap, nonce: Bytes)
    requires |nonce| == NONCE_BYTES
    ensures ExtractNonceEcho(headers) == Encode(nonce) <==>
              HEADER_NONCE in headers && Trim(headers[HEADER_NONCE]) == Encode(nonce)
    ensures ExtractNonceEcho(headers) == "" <==>
              !(HEADER_NONCE in headers
                && exists b: Bytes :: |b| == NONCE_BYTES && Encode(b) == Trim(headers[HEADER_NONCE]))
  {
    EncodeLength(nonce);
    var value := Trim(if HEADER_NONCE in headers then headers[HEADER_NONCE] else "");
    DecodesExactly(value, NONCE_CHARS, NONCE_BYTES);
    forall b: Bytes | |b| == NONCE_BYTES && Encode(b) == value ensures value != "" { EncodeLength(b); }
    hide Trim, DecodesTo, Encode;
  }

  datatype HttpResponse = HttpResponse(status: nat, body: Bytes, signature: Option<string>)

  function ServerMessage(p: Primitives, seed: Bytes, headers: HeaderMap, status: nat, body: Bytes): Canonical.Response
  {
    Response(status, ExtractNonceEcho(headers), Sha256B64u(p, body), Fingerprint(p, p.publicKey(seed)))
  }

  /** What the inner layers come to: an endpoint's data, or an error, expected or not. */
  datatype Reply = Success(data: Json) | Failure(status: nat, code: string, message: UText)

  function StatusOf(reply: Reply): nat { if reply.Success? then 200 else reply.status }

  function Payload(ts: int, reply: Reply): Json
  {
    match reply
    case Success(data) => Obj([(Points("ok"), Bool(true)), (Points("ts"), Number(ts)), (Points("data"), data)])
    case Failure(_, code, message) =>
      Obj([(Points("ok"), Bool(false)), (Points("ts"), Number(ts)),
           (Points("error"), Obj([(Points("code"), String(Points(code))), (Points("message"), String(message))]))])
  }

  /**
   The outermost layer renders, encodes and signs whatever the inner layers answered, errors included.
   Rendering and encoding are outside its exception handler: where they raise, the web framework
   answers, with no signature. The body of that answer is not modelled.
   */
  function Enveloped(p: Primitives, seed: Bytes, headers: HeaderMap, ts: int, reply: Reply): HttpResponse
  {
    match Utf8(Render(Payload(ts, reply)))
    case None => HttpResponse(500, [], None)
    case Some(body) =>
      match ServiceResponse(ServerMessage(p, seed, headers, StatusOf(reply), body))
      case Err(_) => HttpResponse(500, [], None)
      case Ok(message) => HttpResponse(StatusOf(reply), body, Some(Encode(p.sign(seed, message))))
  }
}
