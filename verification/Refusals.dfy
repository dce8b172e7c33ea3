/** Which requests are admitted and which error each other one gets, over the headers, the tables and the clock. */
module Refusals {
  import opened Prelude
  import opened Base64Url
  import opened Canonical
  import opened Crypto
  import opened Auth
  import opened Store
  import opened Admission
  import opened Middleware

  /** The request is well formed as far as its headers go, which spell `h`. */
  ghost predicate Shaped(cfg: Config, r: Incoming, h: SignedRequestHeaders)
  {
    && !r.hasQuery && SpellHeaders(r.headers, h)
    && (r.contentLength.Some? ==> r.contentLength.value <= cfg.maxBody)
  }

  /** The text that the signature must be over. */
  function SignedText(
    p: Primitives, cfg: Config, r: Incoming, h: SignedRequestHeaders, body: Bytes): Result<string, CanonicalError>
  {
    ServiceRequest(Request(r.httpMethod, r.path, h.timestamp, h.nonce, Encode(p.sha256(body)), h.deviceId,
        cfg.serverFp))
  }

  predicate Listed(db: Db, d: string) { d in db.devices && db.devices[d].revokedAt.None? }

  predicate Prompt(cfg: Config, db: Db, h: SignedRequestHeaders, limiterOk: bool, now: int)
  {
    Listed(db, h.deviceId) && limiterOk && h.timestamp - cfg.skew <= now <= h.timestamp + cfg.skew
  }

  predicate Signed(p: Primitives, cfg: Config, db: Db, r: Incoming, h: SignedRequestHeaders, body: Bytes)
    requires Listed(db, h.deviceId)
  {
    var text := SignedText(p, cfg, r, h, body);
    text.Ok? && p.verify(db.devices[h.deviceId].pubkey, text.value, h.signature)
  }

  /** The error that is due, the first that applies in the order of the checks. */
  predicate Due(
    p: Primitives, cfg: Config, db: Db, r: Incoming, h: SignedRequestHeaders, limiterOk: bool, now: int, body: Bytes,
    e: ErrorCode)
  {
    match e
    case UnknownDevice => h.deviceId !in db.devices
    case DeviceRevoked => h.deviceId in db.devices && db.devices[h.deviceId].revokedAt.Some?
    case RateLimited => Listed(db, h.deviceId) && !limiterOk
    case TimestampOutOfWindow =>
      Listed(db, h.deviceId) && limiterOk && (now < h.timestamp - cfg.skew || now > h.timestamp + cfg.skew)
    case BadRequest => Prompt(cfg, db, h, limiterOk, now) && |body| > cfg.maxBody
    case InternalError =>
      Prompt(cfg, db, h, limiterOk, now) && |body| <= cfg.maxBody && SignedText(p, cfg, r, h, body).Err?
    case InvalidSignature =>
      && Prompt(cfg, db, h, limiterOk, now) && |body| <= cfg.maxBody && SignedText(p, cfg, r, h, body).Ok?
      && !Signed(p, cfg, db, r, h, body)
    case ReplayedNonce =>
      && Prompt(cfg, db, h, limiterOk, now) && |body| <= cfg.maxBody && Signed(p, cfg, db, r, h, body)
      && (h.deviceId, h.nonce) in db.nonces
    case _ => false
  }

  /** Nothing is due. */
  predicate Clear(
    p: Primitives, cfg: Config, db: Db, r: Incoming, h: SignedRequestHeaders, limiterOk: bool, now: int, body: Bytes)
  {
    && Prompt(cfg, db, h, limiterOk, now) && |body| <= cfg.maxBody && Signed(p, cfg, db, r, h, body)
    && (h.deviceId, h.nonce) !in db.nonces
  }

  predicate RowsKeyed(db: Db) { forall d :: d in db.devices ==> db.devices[d].deviceId == d }

  /** A request of good shape gets exactly the error that is due, or its device when none is. */
  lemma DecidedExactly(
      p: Primitives, cfg: Config, db: Db, r: Incoming, h: SignedRequestHeaders, limiterOk: bool, now: int, body: Bytes)
    requires Shaped(cfg, r, h) && RowsKeyed(db)
    ensures var outcome := Decision(p, cfg, db, r, limiterOk, now, body);
            && (forall e :: outcome == Err(e) <==> Due(p, cfg, db, r, h, limiterOk, now, body, e))
            && (outcome.Ok? <==> Clear(p, cfg, db, r, h, limiterOk, now, body))
            && (outcome.Ok? ==> outcome.value == db.devices[h.deviceId])
  {
    ParseExactly(r.headers, h);
    hide ParseAuthHeaders, ServiceRequest, SpellHeaders, Encode;
  }

  /** Any other is refused, as a bad request unless a number in its headers was too long. */
  lemma ShapelessRefused(p: Primitives, cfg: Config, db: Db, r: Incoming, limiterOk: bool, now: int, body: Bytes)
    requires forall h :: !Shaped(cfg, r, h)
    ensures Decision(p, cfg, db, r, limiterOk, now, body)
         == if !r.hasQuery && ParseAuthHeaders(r.headers) == Err(InternalError) then Err(InternalError)
             else Err(BadRequest)
  {
    if ParseAuthHeaders(r.headers).Ok? {
      ParseExactly(r.headers, ParseAuthHeaders(r.headers).value);
      assert !Shaped(cfg, r, ParseAuthHeaders(r.headers).value);
    }
    hide ParseAuthHeaders, SpellHeaders, Verdict;
  }

  /** An admitted request spends its nonce for twice the skew and records the visit; a refused one leaves the tables. */
  lemma TablesExactly(
      p: Primitives, cfg: Config, db: Db, r: Incoming, h: SignedRequestHeaders, limiterOk: bool, now: int, body: Bytes)
    requires Shaped(cfg, r, h) && RowsKeyed(db)
    ensures TablesAfter(p, cfg, db, r, limiterOk, now, body)
         == if Clear(p, cfg, db, r, h, limiterOk, now, body)
            then Db(db.devices[h.deviceId := db.devices[h.deviceId].(lastSeenAt := Some(now))],
                    db.nonces[(h.deviceId, h.nonce) := now + 2 * cfg.skew])
            else db
  {
    ParseExactly(r.headers, h);
    hide ParseAuthHeaders, ServiceRequest, SpellHeaders, Encode;
  }

  lemma RefusedLeaves(p: Primitives, cfg: Config, db: Db, r: Incoming, limiterOk: bool, now: int, body: Bytes)
    requires Decision(p, cfg, db, r, limiterOk, now, body).Err?
    ensures TablesAfter(p, cfg, db, r, limiterOk, now, body) == db
  {
    hide Gate, Verdict;
  }

  /** A request without interference is its three steps of the admission protocol. */
  lemma StepsAreMiddleware(
      p: Primitives, cfg: Config, s: State, rid: nat, r: Incoming, limiterOk: bool, now: int, body: Bytes)
    requires rid !in s.handlers
    ensures var a := Step(p, cfg, s, Timed(Arrive(rid, r, limiterOk), now));
            var b := Step(p, cfg, a, Timed(Complete(rid, body), now));
            var c := Step(p, cfg, b, Timed(Finish(rid), now));
            && c.db == TablesAfter(p, cfg, s.db, r, limiterOk, now, body)
            && c.handlers == s.handlers
            && (Decision(p, cfg, s.db, r, limiterOk, now, body).Ok? <==> |c.log| == |s.log| + 2)
  {
    hide Gate, Verdict;
    assert s.handlers - {rid} == s.handlers;
  }
}
