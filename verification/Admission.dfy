/**
 Admission of signed requests over time. Between its suspension points a request handler takes one
 step: `Arrive` looks the device up and samples the clock, `Complete` has read the body and spends
 the nonce, `Finish` records the visit. Other requests, sweeps, revocations, deletions, enrollments
 and restarts may come between any two of them. The history of a run is its log.
 */
module Admission {
  import opened Prelude
  import opened Crypto
  import opened Auth
  import opened Store
  import opened Unicode

  datatype Config = Config(skew: nat, maxBody: nat, serverFp: string)

  /** A request on a signed route, as it reaches the authentication layer. */
  datatype Incoming = Incoming(
    httpMethod: string, path: string, hasQuery: bool, headers: HeaderMap, contentLength: Option<nat>)

  /** What a handler holds while it waits for the body. */
  datatype InFlight = InFlight(
    httpMethod: string, path: string, headers: SignedRequestHeaders, device: Device, now: int)

  /** The checks before the body is read, in order. `limiterOk` is the limiter's answer for the device. */
  function Gate(cfg: Config, db: Db, r: Incoming, limiterOk: bool, now: int): Result<InFlight, ErrorCode>
  {
    if r.hasQuery then Err(BadRequest)
    else match ParseAuthHeaders(r.headers) {
      case Err(e) => Err(e)
      case Ok(h) =>
        if r.contentLength.Some? && r.contentLength.value > cfg.maxBody then Err(BadRequest)
        else if h.deviceId !in db.devices then Err(UnknownDevice)
        else
          var device := db.devices[h.deviceId];
          if device.revokedAt.Some? then Err(DeviceRevoked)
          else if !limiterOk then Err(RateLimited)
          else if !Fresh(h.timestamp, now, cfg.skew) then Err(TimestampOutOfWindow)
          else Ok(InFlight(r.httpMethod, r.path, h, device, now))
    }
  }

  /** The checks on the body and the signature. */
  function BodyChecks(p: Primitives, cfg: Config, f: InFlight, body: Bytes): Result<(), ErrorCode>
  {
    if |body| > cfg.maxBody then Err(BadRequest)
    else VerifyRequest(p, f.device.pubkey, f.httpMethod, f.path, f.headers, body, f.device.deviceId, cfg.serverFp)
  }

  /** The request is admitted: its nonce is not in the table. */
  function Verdict(p: Primitives, cfg: Config, db: Db, f: InFlight, body: Bytes): Result<(), ErrorCode>
  {
    match BodyChecks(p, cfg, f, body)
    case Err(e) => Err(e)
    case Ok(_) =>
      if (f.device.deviceId, f.headers.nonce) in db.nonces then Err(ReplayedNonce) else Ok(())
  }

  function Spend(cfg: Config, db: Db, f: InFlight): Db
  {
    Consume(db, f.device.deviceId, f.headers.nonce, f.now + 2 * cfg.skew)
  }

  // ---- Runs ----

  datatype Action =
    | Arrive(rid: nat, request: Incoming, limiterOk: bool)
    | Complete(rid: nat, body: Bytes)
    | Finish(rid: nat)
    | Abandon(rid: nat)
    | SweepNonces
    | RevokeDevice(deviceId: string)
    | DeleteDevice(deviceId: string)
    | Enroll(pubkey: Bytes, name: UText, platform: string)
    | Restart

  /** An action and the wall-clock second at which it happens. */
  datatype Timed = Timed(action: Action, at: int)

  datatype Entry =
    | LookedUp(deviceId: string)
    | Admitted(deviceId: string, nonce: string, timestamp: nat, sampled: int, lookup: nat)
    | Swept(at: int)
    | Revoked(deviceId: string)
    | Deleted(deviceId: string)
    | Paired(deviceId: string)

  /** A handler between two steps; `lookup` is the place of its device lookup in the log. */
  datatype Handler = Reading(f: InFlight, lookup: nat) | Visiting(f: InFlight, lookup: nat)

  datatype State = State(db: Db, handlers: map<nat, Handler>, log: seq<Entry>)

  const Initial := State(Db(map[], map[]), map[], [])

  /** The device lookup, the limiter and the clock, up to the wait for the body. */
  function ArriveStep(cfg: Config, s: State, rid: nat, request: Incoming, limiterOk: bool, at: int): State
  {
    match Gate(cfg, s.db, request, limiterOk, at)
    case Err(_) => s
    case Ok(f) =>
      s.(handlers := s.handlers[rid := Reading(f, |s.log|)], log := s.log + [LookedUp(f.device.deviceId)])
  }

  function AdmittedEntry(f: InFlight, lookup: nat): Entry
  {
    Admitted(f.device.deviceId, f.headers.nonce, f.headers.timestamp, f.now, lookup)
  }

  /** The body is there: verify, and spend the nonce. */
  function CompleteStep(p: Primitives, cfg: Config, s: State, rid: nat, f: InFlight, lookup: nat, body: Bytes): State
  {
    if Verdict(p, cfg, s.db, f, body).Err? then s.(handlers := s.handlers - {rid})
    else State(Spend(cfg, s.db, f), s.handlers[rid := Visiting(f, lookup)], s.log + [AdmittedEntry(f, lookup)])
  }

  /** Record the visit and hand over to the endpoint. */
  function FinishStep(s: State, rid: nat, f: InFlight): State
  {
    s.(db := Touch(s.db, f.device.deviceId, f.now), handlers := s.handlers - {rid})
  }

  function Step(p: Primitives, cfg: Config, s: State, t: Timed): State
  {
    match t.action
    case Arrive(rid, request, limiterOk) =>
      if rid in s.handlers then s else ArriveStep(cfg, s, rid, request, limiterOk, t.at)
    case Complete(rid, body) =>
      if rid in s.handlers && s.handlers[rid].Reading?
      then CompleteStep(p, cfg, s, rid, s.handlers[rid].f, s.handlers[rid].lookup, body) else s
    case Finish(rid) =>
      if rid in s.handlers && s.handlers[rid].Visiting? then FinishStep(s, rid, s.handlers[rid].f) else s
    case Abandon(rid) => s.(handlers := s.handlers - {rid})
    case SweepNonces => s.(db := Sweep(s.db, t.at), log := s.log + [Swept(t.at)])
    case RevokeDevice(d) => s.(db := Revoke(s.db, d, t.at), log := s.log + [Revoked(d)])
    case DeleteDevice(d) => s.(db := Delete(s.db, d), log := s.log + [Deleted(d)])
    case Enroll(pubkey, name, platform) =>
      var d := DeviceIdFor(p, pubkey);
      if Refuses(s.db.devices, d, pubkey, name) then s
      else s.(db := Upsert(s.db, d, pubkey, name, platform, t.at), log := s.log + [Paired(d)])
    case Restart => s.(handlers := map[])
  }

  function Run(p: Primitives, cfg: Config, s: State, run: seq<Timed>): State
    decreases |run|
  {
    if run == [] then s else Run(p, cfg, Step(p, cfg, s, run[0]), run[1..])
  }

  /** The clock does not go back. */
  predicate NonDecreasing(run: seq<Timed>, from: int)
  {
    && (forall i :: 0 <= i < |run| ==> from <= run[i].at)
    && (forall i, j :: 0 <= i < j < |run| ==> run[i].at <= run[j].at)
  }

  // ---- What is true of every state ----

  function Expiry(cfg: Config, e: Entry): int
    requires e.Admitted?
  {
    e.sampled + 2 * cfg.skew
  }

  /** Nothing logged since has removed the row of this admission. */
  predicate Live(cfg: Config, log: seq<Entry>, i: nat)
    requires i < |log|
  {
    && log[i].Admitted?
    && forall j :: i < j < |log| ==> !Removes(cfg, log[j], log[i])
  }

  /** A sweep that reaches the row's expiry, or the deletion of its device. */
  predicate RemovesRow(later: Entry, key: (string, string), expiresAt: int)
  {
    match later
    case Swept(at) => at >= expiresAt
    case Deleted(d) => d == key.0
    case _ => false
  }

  predicate Removes(cfg: Config, later: Entry, e: Entry)
    requires e.Admitted?
  {
    RemovesRow(later, (e.deviceId, e.nonce), Expiry(cfg, e))
  }

  predicate IsRowOf(cfg: Config, log: seq<Entry>, i: nat, key: (string, string), expiresAt: int)
    requires i < |log|
  {
    Live(cfg, log, i) && key == (log[i].deviceId, log[i].nonce) && expiresAt == Expiry(cfg, log[i])
  }

  /** The nonce table is the history of admitted requests, less what was swept or deleted. */
  predicate NoncesAreHistory(cfg: Config, nonces: Nonces, log: seq<Entry>)
  {
    && (forall i :: 0 <= i < |log| && Live(cfg, log, i) ==>
          (log[i].deviceId, log[i].nonce) in nonces
          && nonces[(log[i].deviceId, log[i].nonce)] == Expiry(cfg, log[i]))
    && (forall key :: key in nonces ==> exists i :: 0 <= i < |log| && IsRowOf(cfg, log, i, key, nonces[key]))
  }

  predicate SameNonce(e: Entry, f: Entry)
  {
    e.Admitted? && f.Admitted? && e.deviceId == f.deviceId && e.nonce == f.nonce
  }

  /** Between two admissions with one device's nonce, the first one's row was removed. */
  predicate LiveDistinct(cfg: Config, log: seq<Entry>)
  {
    forall i, j :: 0 <= i < j < |log| && SameNonce(log[i], log[j]) ==>
      exists k :: i < k < j && Removes(cfg, log[k], log[i])
  }

  /** The device's last enrollment, with no revocation and no deletion between it and `upto`. */
  predicate TrustedSince(log: seq<Entry>, d: string, since: nat, upto: nat)
    requires upto <= |log|
  {
    && since < upto
    && log[since] == Paired(d)
    && forall k :: since < k < upto ==> log[k] != Revoked(d) && log[k] != Deleted(d)
  }

  predicate Trusted(log: seq<Entry>, d: string, upto: nat)
    requires upto <= |log|
  {
    exists since :: 0 <= since < upto && TrustedSince(log, d, since, upto)
  }

  /** Every row is keyed by the identifier derived from its key. */
  predicate KeysDerived(p: Primitives, devices: Devices)
  {
    forall d :: d in devices ==> devices[d].deviceId == d == DeviceIdFor(p, devices[d].pubkey)
  }

  predicate Active(devices: Devices, d: string) { d in devices && devices[d].revokedAt.None? }

  /** The active rows are the devices that the history trusts. */
  ghost predicate DevicesAreHistory(devices: Devices, log: seq<Entry>)
  {
    forall d: string :: Active(devices, d) <==> Trusted(log, d, |log|)
  }

  /** The lookup's entry in the log, and no sweep before it with a later clock. */
  predicate LookedUpAt(log: seq<Entry>, d: string, sampled: int, lookup: nat)
  {
    && lookup < |log|
    && log[lookup] == LookedUp(d)
    && Trusted(log, d, lookup)
    && forall k :: 0 <= k < lookup && log[k].Swept? ==> log[k].at <= sampled
  }

  /** What a handler remembers was true when it looked. */
  predicate HandlerRemembers(p: Primitives, cfg: Config, log: seq<Entry>, f: InFlight, lookup: nat)
  {
    && LookedUpAt(log, f.device.deviceId, f.now, lookup)
    && f.device.deviceId == DeviceIdFor(p, f.device.pubkey)
    && Fresh(f.headers.timestamp, f.now, cfg.skew)
  }

  predicate HandlersRemember(p: Primitives, cfg: Config, handlers: map<nat, Handler>, log: seq<Entry>)
  {
    forall rid :: rid in handlers ==> HandlerRemembers(p, cfg, log, handlers[rid].f, handlers[rid].lookup)
  }

  /** Every admission was fresh when sampled, and its device was trusted when looked up. */
  predicate AdmissionsSound(cfg: Config, log: seq<Entry>)
  {
    forall i :: 0 <= i < |log| && log[i].Admitted? ==>
      && log[i].lookup < i
      && LookedUpAt(log, log[i].deviceId, log[i].sampled, log[i].lookup)
      && Fresh(log[i].timestamp, log[i].sampled, cfg.skew)
  }

  /** A handler past the nonce check has its admission in the log. */
  predicate VisitorsAdmitted(handlers: map<nat, Handler>, log: seq<Entry>)
  {
    forall rid :: rid in handlers && handlers[rid].Visiting? ==>
      AdmittedEntry(handlers[rid].f, handlers[rid].lookup) in log
  }

  predicate SweepsBefore(log: seq<Entry>, at: int)
  {
    forall k :: 0 <= k < |log| && log[k].Swept? ==> log[k].at <= at
  }

  ghost predicate Inv(p: Primitives, cfg: Config, s: State, at: int)
  {
    && NoncesAreHistory(cfg, s.db.nonces, s.log)
    && LiveDistinct(cfg, s.log)
    && KeysDerived(p, s.db.devices)
    && DevicesAreHistory(s.db.devices, s.log)
    && HandlersRemember(p, cfg, s.handlers, s.log)
    && AdmissionsSound(cfg, s.log)
    && SweepsBefore(s.log, at)
    && VisitorsAdmitted(s.handlers, s.log)
  }
}
