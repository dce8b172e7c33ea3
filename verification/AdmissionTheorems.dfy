/** What the admission protocol promises over whole runs. */
module AdmissionTheorems {
  import opened Prelude
  import opened Crypto
  import opened Auth
  import opened Store
  import Canonical
  import Text
  import opened Unicode
  import opened Admission
  import opened AdmissionProofs

  /** The log after a run from empty tables. */
  function LogOf(p: Primitives, cfg: Config, run: seq<Timed>): seq<Entry> { Run(p, cfg, Initial, run).log }

  lemma AfterRun(p: Primitives, cfg: Config, run: seq<Timed>, from: int) returns (at: int)
    requires NonDecreasing(run, from)
    ensures Inv(p, cfg, Run(p, cfg, Initial, run), at)
  {
    InitialHolds(p, cfg, from);
    at := RunKeeps(p, cfg, Initial, run, from);
  }

  // ---- Replay ----

  /**
   Why a request admitted at `i` could be admitted again at `j`: its device was deleted, after the second
   lookup or before a new pairing that precedes it; or a sweep
   that reached the first row's expiry came between the second lookup and the second nonce check; or
   such a sweep came before the second lookup, at the one tick `timestamp + skew` at which the expiry
   of a row made `skew` early and the end of the freshness window meet.
   */
  predicate Readmits(cfg: Config, log: seq<Entry>, i: nat, k: nat, j: nat)
    requires i < k < j < |log| && log[i].Admitted? && log[j].Admitted?
  {
    match log[k]
    case Deleted(d) =>
      d == log[i].deviceId
      && (log[j].lookup < k || exists m :: k < m < log[j].lookup < j && log[m] == Paired(d))
    case Swept(at) =>
      && at >= Expiry(cfg, log[i])
      && (log[j].lookup < k || at == log[j].sampled == log[j].timestamp + cfg.skew == log[i].sampled + 2 * cfg.skew)
    case _ => false
  }

  /** No run admits a request twice, but for these reasons. */
  lemma AdmittedAtMostOnce(p: Primitives, cfg: Config, run: seq<Timed>, from: int, i: nat, j: nat)
    requires NonDecreasing(run, from)
    requires i < j < |LogOf(p, cfg, run)| && SameNonce(LogOf(p, cfg, run)[i], LogOf(p, cfg, run)[j])
    requires LogOf(p, cfg, run)[i].timestamp == LogOf(p, cfg, run)[j].timestamp
    ensures exists k :: i < k < j && Readmits(cfg, LogOf(p, cfg, run), i, k, j)
  {
    var at := AfterRun(p, cfg, run, from);
    WhyReadmitted(cfg, LogOf(p, cfg, run), i, j);
  }

  lemma SoundAt(cfg: Config, log: seq<Entry>, i: nat)
    requires AdmissionsSound(cfg, log) && i < |log| && log[i].Admitted?
    ensures Fresh(log[i].timestamp, log[i].sampled, cfg.skew)
    ensures log[i].lookup < i && forall k :: 0 <= k < log[i].lookup && log[k].Swept? ==> log[k].at <= log[i].sampled
    ensures log[log[i].lookup] == LookedUp(log[i].deviceId)
  {
  }

  lemma Remover(cfg: Config, log: seq<Entry>, i: nat, j: nat) returns (k: nat)
    requires LiveDistinct(cfg, log) && i < j < |log| && SameNonce(log[i], log[j])
    ensures i < k < j && Removes(cfg, log[k], log[i])
  {
    k :| i < k < j && Removes(cfg, log[k], log[i]);
  }

  /** A lookup that follows a deletion found the device paired anew. */
  lemma PairedAfter(cfg: Config, log: seq<Entry>, k: nat, j: nat)
    requires AdmissionsSound(cfg, log) && j < |log| && log[j].Admitted? && k < log[j].lookup
    requires log[k] == Deleted(log[j].deviceId)
    ensures exists m :: k < m < log[j].lookup < j && log[m] == Paired(log[j].deviceId)
  {
    var d := log[j].deviceId;
    assert LookedUpAt(log, d, log[j].sampled, log[j].lookup);
    var since :| 0 <= since < log[j].lookup && TrustedSince(log, d, since, log[j].lookup);
    hide AdmissionsSound, Fresh;
  }

  lemma WhyReadmitted(cfg: Config, log: seq<Entry>, i: nat, j: nat)
    requires LiveDistinct(cfg, log) && AdmissionsSound(cfg, log)
    requires i < j < |log| && SameNonce(log[i], log[j]) && log[i].timestamp == log[j].timestamp
    ensures exists k :: i < k < j && Readmits(cfg, log, i, k, j)
  {
    hide Trusted, AdmissionsSound, LiveDistinct;
    var k := Remover(cfg, log, i, j);
    if log[k].Deleted? && k < log[j].lookup { PairedAfter(cfg, log, k, j); }
    SoundAt(cfg, log, i);
    SoundAt(cfg, log, j);
    assert Readmits(cfg, log, i, k, j);
  }

  /** When no request is stalled across a sweep, only deletion and the one tick are left. */
  lemma AdmittedOnceWhenPrompt(p: Primitives, cfg: Config, run: seq<Timed>, from: int, i: nat, j: nat)
    requires NonDecreasing(run, from)
    requires i < j < |LogOf(p, cfg, run)| && SameNonce(LogOf(p, cfg, run)[i], LogOf(p, cfg, run)[j])
    requires LogOf(p, cfg, run)[i].timestamp == LogOf(p, cfg, run)[j].timestamp
    requires forall k :: LogOf(p, cfg, run)[j].lookup < k < j && LogOf(p, cfg, run)[k].Swept? ==>
               LogOf(p, cfg, run)[k].at < Expiry(cfg, LogOf(p, cfg, run)[i])
    requires forall k :: i < k < j ==> LogOf(p, cfg, run)[k] != Deleted(LogOf(p, cfg, run)[i].deviceId)
    ensures LogOf(p, cfg, run)[j].sampled == LogOf(p, cfg, run)[j].timestamp + cfg.skew
         == LogOf(p, cfg, run)[i].sampled + 2 * cfg.skew
  {
    AdmittedAtMostOnce(p, cfg, run, from, i, j);
    var k :| i < k < j && Readmits(cfg, LogOf(p, cfg, run), i, k, j);
  }

  // ---- The exceptions are real ----

  /** A request that passes every check on its own, from the holder of an enrolled key. */
  predicate Acceptable(p: Primitives, cfg: Config, r: Incoming, h: SignedRequestHeaders, pubkey: Bytes, body: Bytes)
  {
    && !r.hasQuery && |body| <= cfg.maxBody && (r.contentLength.Some? ==> r.contentLength.value <= cfg.maxBody)
    && ParseAuthHeaders(r.headers) == Ok(h)
    && h.deviceId == DeviceIdFor(p, pubkey)
    && VerifyRequest(p, pubkey, r.httpMethod, r.path, h, body, h.deviceId, cfg.serverFp) == Ok(())
  }

  /** The table holds the key's active row. */
  predicate Holds(db: Db, d: string, pubkey: Bytes)
  {
    Active(db.devices, d) && db.devices[d].deviceId == d && db.devices[d].pubkey == pubkey
  }

  /** Steps that follow one another make a run. */
  predicate Chain(p: Primitives, cfg: Config, states: seq<State>, run: seq<Timed>)
  {
    && |states| == |run| + 1
    && forall i :: 0 <= i < |run| ==> states[i + 1] == Step(p, cfg, states[i], run[i])
  }

  lemma {:induction false} ChainRuns(p: Primitives, cfg: Config, states: seq<State>, run: seq<Timed>)
    requires Chain(p, cfg, states, run)
    ensures Run(p, cfg, states[0], run) == states[|run|]
    decreases |run|
  {
    hide Step;
    if run != [] { ChainRuns(p, cfg, states[1..], run[1..]); }
  }

  lemma ArriveAccepted(
    p: Primitives, cfg: Config, s: State, rid: nat, r: Incoming, h: SignedRequestHeaders, pubkey: Bytes, body: Bytes,
    at: int)
    returns (f: InFlight)
    requires Acceptable(p, cfg, r, h, pubkey, body) && Holds(s.db, h.deviceId, pubkey)
    requires rid !in s.handlers && Fresh(h.timestamp, at, cfg.skew)
    ensures f.headers == h && f.now == at && f.device.deviceId == h.deviceId && BodyChecks(p, cfg, f, body) == Ok(())
    ensures Step(p, cfg, s, Timed(Arrive(rid, r, true), at))
         == State(s.db, s.handlers[rid := Reading(f, |s.log|)], s.log + [LookedUp(h.deviceId)])
  {
    f := InFlight(r.httpMethod, r.path, h, s.db.devices[h.deviceId], at);
    GatePasses(cfg, s.db, r, true, at, f);
    hide Gate, ParseAuthHeaders, VerifyRequest, Fresh;
  }

  lemma CompleteAccepted(p: Primitives, cfg: Config, s: State, rid: nat, f: InFlight, lookup: nat, body: Bytes, at: int)
    requires rid in s.handlers && s.handlers[rid] == Reading(f, lookup)
    requires BodyChecks(p, cfg, f, body) == Ok(()) && (f.device.deviceId, f.headers.nonce) !in s.db.nonces
    ensures Step(p, cfg, s, Timed(Complete(rid, body), at))
         == State(Db(s.db.devices, s.db.nonces[(f.device.deviceId, f.headers.nonce) := f.now + 2 * cfg.skew]),
                  s.handlers[rid := Visiting(f, lookup)], s.log + [AdmittedEntry(f, lookup)])
  {
    hide BodyChecks;
  }

  /** Enrollment where no device is listed. */
  lemma EnrollAlone(p: Primitives, cfg: Config, s: State, pubkey: Bytes, at: int) returns (next: State)
    requires s.db.devices == map[]
    ensures next == Step(p, cfg, s, Timed(Enroll(pubkey, [], ""), at))
    ensures var d := DeviceIdFor(p, pubkey);
      && Holds(next.db, d, pubkey) && next.db.devices.Keys == {d}
      && next == State(Db(next.db.devices, s.db.nonces), s.handlers, s.log + [Paired(d)])
  {
    hide DeviceIdFor;
    next := Step(p, cfg, s, Timed(Enroll(pubkey, [], ""), at));
  }

  /** The first request admitted, in the state that the tight runs share. */
  lemma FirstAdmitted(
      p: Primitives, cfg: Config, r: Incoming, h: SignedRequestHeaders, pubkey: Bytes, body: Bytes, now: int)
    returns (states: seq<State>, run: seq<Timed>, f: InFlight)
    requires Acceptable(p, cfg, r, h, pubkey, body) && Fresh(h.timestamp, now, cfg.skew)
    ensures |states| == 4 && |run| == 3 && states[0] == Initial && Chain(p, cfg, states, run)
    ensures forall i :: 0 <= i < |run| ==> run[i].at == now
    ensures Holds(states[3].db, h.deviceId, pubkey) && states[3].db.devices.Keys == {h.deviceId}
    ensures states[3].handlers.Keys == {0} && states[3].db.nonces == map[(h.deviceId, h.nonce) := now + 2 * cfg.skew]
    ensures states[3].log
              == [Paired(h.deviceId), LookedUp(h.deviceId), Admitted(h.deviceId, h.nonce, h.timestamp, now, 1)]
  {
    hide ParseAuthHeaders, VerifyRequest, BodyChecks, DeviceIdFor, Gate, Run;
    run := [Timed(Enroll(pubkey, [], ""), now), Timed(Arrive(0, r, true), now), Timed(Complete(0, body), now)];
    var s1 := EnrollAlone(p, cfg, Initial, pubkey, now);
    f := ArriveAccepted(p, cfg, s1, 0, r, h, pubkey, body, now);
    var s2 := Step(p, cfg, s1, run[1]);
    CompleteAccepted(p, cfg, s2, 0, f, 1, body, now);
    states := [Initial, s1, s2, Step(p, cfg, s2, run[2])];
    hide Step, Acceptable, Fresh;
  }

  /**
   The same request admitted at both ends of its window, with a sweep in the last tick. Any
   acceptable request can be repeated this way.
   */
  lemma TickIsTight(p: Primitives, cfg: Config, r: Incoming, h: SignedRequestHeaders, pubkey: Bytes, body: Bytes)
    returns (run: seq<Timed>)
    requires Acceptable(p, cfg, r, h, pubkey, body)
    ensures NonDecreasing(run, h.timestamp - cfg.skew)
    ensures LogOf(p, cfg, run) ==
            [Paired(h.deviceId), LookedUp(h.deviceId),
             Admitted(h.deviceId, h.nonce, h.timestamp, h.timestamp - cfg.skew, 1),
             Swept(h.timestamp + cfg.skew), LookedUp(h.deviceId),
             Admitted(h.deviceId, h.nonce, h.timestamp, h.timestamp + cfg.skew, 4)]
  {
    hide ParseAuthHeaders, VerifyRequest, BodyChecks, DeviceIdFor, Gate, Run;
    var early, late := h.timestamp - cfg.skew, h.timestamp + cfg.skew;
    var states, first, _ := FirstAdmitted(p, cfg, r, h, pubkey, body, early);
    var more := [Timed(SweepNonces, late), Timed(Arrive(1, r, true), late), Timed(Complete(1, body), late)];
    var s3 := states[3];
    var s4 := State(Db(s3.db.devices, map[]), s3.handlers, s3.log + [Swept(late)]);
    assert s4 == Step(p, cfg, s3, more[0]);
    var g := ArriveAccepted(p, cfg, s4, 1, r, h, pubkey, body, late);
    var s5 := Step(p, cfg, s4, more[1]);
    CompleteAccepted(p, cfg, s5, 1, g, 4, body, late);
    var s6 := Step(p, cfg, s5, more[2]);
    hide Step, Acceptable, Holds;
    run := first + more;
    ChainRuns(p, cfg, states + [s4, s5, s6], run);
  }

  /**
   The same request admitted twice although its clock was sampled well inside the window both times:
   the second body arrives only after the sweep that dropped the first row.
   */
  lemma StallIsTight(p: Primitives, cfg: Config, r: Incoming, h: SignedRequestHeaders, pubkey: Bytes, body: Bytes)
    returns (run: seq<Timed>)
    requires Acceptable(p, cfg, r, h, pubkey, body)
    ensures NonDecreasing(run, h.timestamp)
    ensures LogOf(p, cfg, run) ==
            [Paired(h.deviceId), LookedUp(h.deviceId), Admitted(h.deviceId, h.nonce, h.timestamp, h.timestamp, 1),
             LookedUp(h.deviceId), Swept(h.timestamp + 2 * cfg.skew),
             Admitted(h.deviceId, h.nonce, h.timestamp, h.timestamp, 3)]
  {
    hide ParseAuthHeaders, VerifyRequest, BodyChecks, DeviceIdFor, Gate, Run;
    var now, late := h.timestamp, h.timestamp + 2 * cfg.skew;
    var states, first, _ := FirstAdmitted(p, cfg, r, h, pubkey, body, now);
    var more := [Timed(Arrive(1, r, true), now), Timed(SweepNonces, late), Timed(Complete(1, body), late)];
    var g := ArriveAccepted(p, cfg, states[3], 1, r, h, pubkey, body, now);
    var s4 := Step(p, cfg, states[3], more[0]);
    var s5 := State(Db(s4.db.devices, map[]), s4.handlers, s4.log + [Swept(late)]);
    assert s5 == Step(p, cfg, s4, more[1]);
    CompleteAccepted(p, cfg, s5, 1, g, 3, body, late);
    var s6 := Step(p, cfg, s5, more[2]);
    hide Step, Acceptable, Holds;
    run := first + more;
    ChainRuns(p, cfg, states + [s4, s5, s6], run);
  }

  /** The same request admitted twice because its device is deleted while the second body is on its way. */
  lemma DeletionIsTight(p: Primitives, cfg: Config, r: Incoming, h: SignedRequestHeaders, pubkey: Bytes, body: Bytes)
    returns (run: seq<Timed>)
    requires Acceptable(p, cfg, r, h, pubkey, body)
    ensures NonDecreasing(run, h.timestamp)
    ensures LogOf(p, cfg, run) ==
            [Paired(h.deviceId), LookedUp(h.deviceId), Admitted(h.deviceId, h.nonce, h.timestamp, h.timestamp, 1),
             LookedUp(h.deviceId), Deleted(h.deviceId),
             Admitted(h.deviceId, h.nonce, h.timestamp, h.timestamp, 3)]
  {
    hide ParseAuthHeaders, VerifyRequest, BodyChecks, DeviceIdFor, Gate, Run;
    var now, d := h.timestamp, h.deviceId;
    var states, first, _ := FirstAdmitted(p, cfg, r, h, pubkey, body, now);
    var more := [Timed(Arrive(1, r, true), now), Timed(DeleteDevice(d), now), Timed(Complete(1, body), now)];
    var g := ArriveAccepted(p, cfg, states[3], 1, r, h, pubkey, body, now);
    var s4 := Step(p, cfg, states[3], more[0]);
    var s5 := State(Delete(s4.db, d), s4.handlers, s4.log + [Deleted(d)]);
    assert s5 == Step(p, cfg, s4, more[1]);
    CompleteAccepted(p, cfg, s5, 1, g, 3, body, now);
    var s6 := Step(p, cfg, s5, more[2]);
    hide Step, Acceptable, Holds, Delete;
    run := first + more;
    ChainRuns(p, cfg, states + [s4, s5, s6], run);
  }

  /** The same request admitted twice because its device is deleted and paired again in between. */
  lemma RepairingIsTight(p: Primitives, cfg: Config, r: Incoming, h: SignedRequestHeaders, pubkey: Bytes, body: Bytes)
    returns (run: seq<Timed>)
    requires Acceptable(p, cfg, r, h, pubkey, body)
    ensures NonDecreasing(run, h.timestamp)
    ensures LogOf(p, cfg, run) ==
            [Paired(h.deviceId), LookedUp(h.deviceId), Admitted(h.deviceId, h.nonce, h.timestamp, h.timestamp, 1),
             Deleted(h.deviceId), Paired(h.deviceId), LookedUp(h.deviceId),
             Admitted(h.deviceId, h.nonce, h.timestamp, h.timestamp, 5)]
  {
    hide ParseAuthHeaders, VerifyRequest, BodyChecks, DeviceIdFor, Gate, Run;
    var now, d := h.timestamp, h.deviceId;
    var states, first, _ := FirstAdmitted(p, cfg, r, h, pubkey, body, now);
    var more := [Timed(DeleteDevice(d), now), Timed(Enroll(pubkey, [], ""), now),
                 Timed(Arrive(1, r, true), now), Timed(Complete(1, body), now)];
    var s3 := states[3];
    var s4 := State(Delete(s3.db, d), s3.handlers, s3.log + [Deleted(d)]);
    assert s4 == Step(p, cfg, s3, more[0]);
    var s5 := EnrollAlone(p, cfg, s4, pubkey, now);
    var g := ArriveAccepted(p, cfg, s5, 1, r, h, pubkey, body, now);
    var s6 := Step(p, cfg, s5, more[2]);
    CompleteAccepted(p, cfg, s6, 1, g, 5, body, now);
    var s7 := Step(p, cfg, s6, more[3]);
    hide Step, Acceptable, Holds, Delete;
    run := first + more;
    ChainRuns(p, cfg, states + [s4, s5, s6, s7], run);
  }

  // ---- The tables ----

  /** After every run the nonce table is the history of admissions, less what was swept or deleted. */
  lemma NonceTableIsHistory(
      p: Primitives, cfg: Config, run: seq<Timed>, from: int, key: (string, string), expiresAt: int)
    requires NonDecreasing(run, from)
    ensures var s := Run(p, cfg, Initial, run);
      key in s.db.nonces && s.db.nonces[key] == expiresAt <==>
      exists i :: 0 <= i < |s.log| && IsRowOf(cfg, s.log, i, key, expiresAt)
  {
    var at := AfterRun(p, cfg, run, from);
  }

  /** Every row is keyed by its key's identifier, and a device is active exactly when it is trusted. */
  lemma DeviceTableIsHistory(p: Primitives, cfg: Config, run: seq<Timed>, from: int, d: string)
    requires NonDecreasing(run, from)
    ensures var s := Run(p, cfg, Initial, run);
      && (d in s.db.devices ==> s.db.devices[d].deviceId == d == DeviceIdFor(p, s.db.devices[d].pubkey))
      && (Active(s.db.devices, d) <==> Trusted(s.log, d, |s.log|))
  {
    var at := AfterRun(p, cfg, run, from);
  }

  /** The uniqueness constraint on keys never fires: an enrollment raises only for a name with a lone surrogate. */
  lemma EnrollmentRaisesExactly(p: Primitives, cfg: Config, run: seq<Timed>, from: int, pubkey: Bytes, name: UText)
    requires NonDecreasing(run, from)
    ensures var devices := Run(p, cfg, Initial, run).db.devices;
            && !KeyTaken(devices, DeviceIdFor(p, pubkey), pubkey)
            && (Refuses(devices, DeviceIdFor(p, pubkey), pubkey, name) <==> !Encodable(name))
  {
    var at := AfterRun(p, cfg, run, from);
    EnrollmentNeverCollides(p, Run(p, cfg, Initial, run).db.devices, pubkey);
  }

  /** No request is admitted whose lookup followed a revocation or deletion that no pairing had cleared. */
  lemma AdmittedOnlyTrusted(p: Primitives, cfg: Config, run: seq<Timed>, from: int, i: nat)
    requires NonDecreasing(run, from)
    requires i < |LogOf(p, cfg, run)| && LogOf(p, cfg, run)[i].Admitted?
    ensures var log := LogOf(p, cfg, run);
      && log[i].lookup < i && log[log[i].lookup] == LookedUp(log[i].deviceId)
      && Trusted(log, log[i].deviceId, log[i].lookup)
      && Fresh(log[i].timestamp, log[i].sampled, cfg.skew)
  {
    var at := AfterRun(p, cfg, run, from);
  }

  /**
   The signature that an admission rests on: by the key of the device, over a text that determines
   method, path, timestamp, nonce, body, device and server.
   */
  ghost predicate SignedBy(p: Primitives, cfg: Config, f: InFlight, e: Entry, body: Bytes)
    requires e.Admitted?
  {
    && DeviceIdFor(p, f.device.pubkey) == e.deviceId
    && exists message :: p.verify(f.device.pubkey, message, f.headers.signature)
         && Canonical.ReadRequest(message) == Some(Canonical.Request(
              Text.Upper(f.httpMethod), f.path, e.timestamp, e.nonce, Sha256B64u(p, body), e.deviceId, cfg.serverFp))
  }

  lemma VerdictSigned(p: Primitives, cfg: Config, db: Db, f: InFlight, lookup: nat, body: Bytes)
    requires Verdict(p, cfg, db, f, body).Ok? && f.device.deviceId == DeviceIdFor(p, f.device.pubkey)
    ensures SignedBy(p, cfg, f, AdmittedEntry(f, lookup), body) && |body| <= cfg.maxBody
  {
    var r := Rebuilt(p, f.httpMethod, f.path, f.headers, body, f.device.deviceId, cfg.serverFp);
    Canonical.RequestReadsBack(r);
    assert p.verify(f.device.pubkey, Canonical.PhoneRequest(r).value, f.headers.signature);
    hide Canonical.ReadRequest, Canonical.PhoneRequest, DeviceIdFor;
  }

  /** Whatever a step admits after any run was signed by its device's key, for the very body it came with. */
  lemma AdmittedWasSigned(p: Primitives, cfg: Config, run: seq<Timed>, from: int, t: Timed, e: Entry)
    requires NonDecreasing(run, from) && e.Admitted?
    requires var s := Run(p, cfg, Initial, run); Step(p, cfg, s, t).log == s.log + [e]
    ensures var s := Run(p, cfg, Initial, run);
            && t.action.Complete? && t.action.rid in s.handlers
            && SignedBy(p, cfg, s.handlers[t.action.rid].f, e, t.action.body)
            && (e.deviceId, e.nonce) !in s.db.nonces
  {
    var at := AfterRun(p, cfg, run, from);
    var s := Run(p, cfg, Initial, run);
    AdmittingStep(p, cfg, s, t, e);
    var h := s.handlers[t.action.rid];
    VerdictSigned(p, cfg, s.db, h.f, h.lookup, t.action.body);
    hide Run, SignedBy, Verdict, Step;
  }

  /** Only a completed body admits, and only with a positive verdict. */
  lemma AdmittingStep(p: Primitives, cfg: Config, s: State, t: Timed, e: Entry)
    requires e.Admitted? && Step(p, cfg, s, t).log == s.log + [e] && HandlersRemember(p, cfg, s.handlers, s.log)
    ensures t.action.Complete? && t.action.rid in s.handlers
    ensures var h := s.handlers[t.action.rid];
            && Verdict(p, cfg, s.db, h.f, t.action.body).Ok? && e == AdmittedEntry(h.f, h.lookup)
            && h.f.device.deviceId == DeviceIdFor(p, h.f.device.pubkey)
  {
    hide Gate, Verdict, LookedUpAt, Fresh;
    assert Step(p, cfg, s, t).log[|s.log|] == e;
  }

  /** A new nonce row is the row of the admission logged with it. */
  lemma NoncesChangeOnAdmission(p: Primitives, cfg: Config, s: State, t: Timed)
    requires t.action.Arrive? || t.action.Complete? || t.action.Finish? || t.action.Abandon?
    requires Step(p, cfg, s, t).db.nonces != s.db.nonces
    ensures var next := Step(p, cfg, s, t);
      exists e: Entry :: e.Admitted? && next.log == s.log + [e] && (e.deviceId, e.nonce) !in s.db.nonces
        && next.db.nonces == s.db.nonces[(e.deviceId, e.nonce) := Expiry(cfg, e)]
  {
    hide Gate, BodyChecks;
    assert t.action.Complete?;
    var h := s.handlers[t.action.rid];
    var e, next := AdmittedEntry(h.f, h.lookup), Step(p, cfg, s, t);
    assert next.log == s.log + [e] && next.db.nonces == s.db.nonces[(e.deviceId, e.nonce) := Expiry(cfg, e)];
  }

  /** A request changes a device's row only by recording the visit of an earlier admission. */
  lemma DevicesChangeOnVisit(p: Primitives, cfg: Config, s: State, t: Timed, d: string)
    requires VisitorsAdmitted(s.handlers, s.log)
    requires t.action.Arrive? || t.action.Complete? || t.action.Finish? || t.action.Abandon?
    ensures Step(p, cfg, s, t).db.devices.Keys == s.db.devices.Keys
    ensures d in s.db.devices && Step(p, cfg, s, t).db.devices[d] != s.db.devices[d] ==>
              exists e :: e in s.log && e.Admitted? && e.deviceId == d
                && Step(p, cfg, s, t).db.devices[d] == s.db.devices[d].(lastSeenAt := Some(e.sampled))
  {
    hide Gate, BodyChecks;
    if t.action.Finish? && t.action.rid in s.handlers && s.handlers[t.action.rid].Visiting? {
      var h := s.handlers[t.action.rid];
      var e := AdmittedEntry(h.f, h.lookup);
      assert e in s.log && e.deviceId == h.f.device.deviceId && e.sampled == h.f.now;
    }
  }

  /** A request that is refused at any stage leaves the nonces and every device's row as they were. */
  lemma RefusedLeavesTables(p: Primitives, cfg: Config, s: State, t: Timed)
    requires t.action.Arrive? || t.action.Complete? || t.action.Abandon?
    requires forall e: Entry :: e.Admitted? ==> Step(p, cfg, s, t).log != s.log + [e]
    ensures Step(p, cfg, s, t).db == s.db
  {
    hide Gate, BodyChecks;
    if Step(p, cfg, s, t).db.nonces != s.db.nonces { NoncesChangeOnAdmission(p, cfg, s, t); }
  }
}
