/** Every run of the admission protocol keeps its invariant. */
module AdmissionProofs {
  import opened Prelude
  import opened Crypto
  import opened Auth
  import opened Store
  import opened Unicode
  import opened Admission

  // ---- One more entry in the log ----

  lemma LiveAppend(cfg: Config, log: seq<Entry>, e: Entry, i: nat)
    requires i < |log|
    ensures Live(cfg, log + [e], i) <==> Live(cfg, log, i) && !Removes(cfg, e, log[i])
  {
    var more := log + [e];
    assert more[|log|] == e;
    if Live(cfg, log, i) && !Removes(cfg, e, log[i]) {
      forall j | i < j < |more| ensures !Removes(cfg, more[j], more[i]) {
        if j < |log| { assert !Removes(cfg, log[j], log[i]); }
      }
    }
    if Live(cfg, more, i) {
      forall j | i < j < |log| ensures !Removes(cfg, log[j], log[i]) { assert !Removes(cfg, more[j], more[i]); }
    }
  }

  lemma TrustedAppend(log: seq<Entry>, e: Entry, d: string)
    ensures Trusted(log + [e], d, |log| + 1) <==>
            e == Paired(d) || (Trusted(log, d, |log|) && e != Revoked(d) && e != Deleted(d))
  {
    var more := log + [e];
    assert more[|log|] == e;
    if e == Paired(d) {
      assert TrustedSince(more, d, |log|, |log| + 1);
    } else if Trusted(log, d, |log|) && e != Revoked(d) && e != Deleted(d) {
      var since :| 0 <= since < |log| && TrustedSince(log, d, since, |log|);
      assert TrustedSince(more, d, since, |log| + 1);
    }
    if Trusted(more, d, |log| + 1) && e != Paired(d) {
      var since :| 0 <= since < |log| + 1 && TrustedSince(more, d, since, |log| + 1);
      assert forall k :: since < k < |log| ==> more[k] == log[k];
      assert TrustedSince(log, d, since, |log|);
    }
  }

  lemma TrustedEarlier(log: seq<Entry>, e: Entry, d: string, upto: nat)
    requires upto <= |log| && Trusted(log, d, upto)
    ensures Trusted(log + [e], d, upto)
  {
    var since :| 0 <= since < upto && TrustedSince(log, d, since, upto);
    assert TrustedSince(log + [e], d, since, upto);
  }

  lemma LookedUpAppend(log: seq<Entry>, e: Entry, d: string, sampled: int, lookup: nat)
    requires LookedUpAt(log, d, sampled, lookup)
    ensures LookedUpAt(log + [e], d, sampled, lookup)
  {
    TrustedEarlier(log, e, d, lookup);
  }

  lemma SoundAppend(cfg: Config, log: seq<Entry>, e: Entry)
    requires AdmissionsSound(cfg, log)
    requires e.Admitted? ==> LookedUpAt(log, e.deviceId, e.sampled, e.lookup) && Fresh(e.timestamp, e.sampled, cfg.skew)
    ensures AdmissionsSound(cfg, log + [e])
  {
    var more := log + [e];
    forall i | 0 <= i < |more| && more[i].Admitted?
      ensures more[i].lookup < i && LookedUpAt(more, more[i].deviceId, more[i].sampled, more[i].lookup)
      ensures Fresh(more[i].timestamp, more[i].sampled, cfg.skew)
    {
      LookedUpAppend(log, e, more[i].deviceId, more[i].sampled, more[i].lookup);
    }
  }

  lemma RememberAppend(p: Primitives, cfg: Config, handlers: map<nat, Handler>, log: seq<Entry>, e: Entry)
    requires HandlersRemember(p, cfg, handlers, log)
    ensures HandlersRemember(p, cfg, handlers, log + [e])
  {
    forall rid | rid in handlers
      ensures HandlerRemembers(p, cfg, log + [e], handlers[rid].f, handlers[rid].lookup)
    {
      LookedUpAppend(log, e, handlers[rid].f.device.deviceId, handlers[rid].f.now, handlers[rid].lookup);
    }
  }

  // ---- The nonce table ----

  /** An admission logged now is preceded by the removal of each earlier row with its nonce. */
  lemma DistinctAppend(cfg: Config, log: seq<Entry>, e: Entry)
    requires LiveDistinct(cfg, log)
    requires forall i :: 0 <= i < |log| && SameNonce(log[i], e) ==> !Live(cfg, log, i)
    ensures LiveDistinct(cfg, log + [e])
  {
    var more := log + [e];
    forall i, j | 0 <= i < j < |more| && SameNonce(more[i], more[j])
      ensures exists k :: i < k < j && Removes(cfg, more[k], more[i])
    {
      if j < |log| {
        assert SameNonce(log[i], log[j]);
        var k :| i < k < j && Removes(cfg, log[k], log[i]);
        assert Removes(cfg, more[k], more[i]);
      } else {
        assert SameNonce(log[i], e);
        var k :| i < k < |log| && Removes(cfg, log[k], log[i]);
        assert Removes(cfg, more[k], more[i]);
      }
    }
  }

  /** An entry that is no admission removes the rows it removes, and no others. */
  lemma RowsFollow(cfg: Config, nonces: Nonces, left: Nonces, log: seq<Entry>, e: Entry)
    requires NoncesAreHistory(cfg, nonces, log) && !e.Admitted?
    requires forall key :: key in left ==> key in nonces && left[key] == nonces[key]
    requires forall key :: key in nonces ==> (key in left <==> !RemovesRow(e, key, nonces[key]))
    ensures NoncesAreHistory(cfg, left, log + [e])
  {
    var more := log + [e];
    forall i | 0 <= i < |more| && Live(cfg, more, i)
      ensures (more[i].deviceId, more[i].nonce) in left
      ensures left[(more[i].deviceId, more[i].nonce)] == Expiry(cfg, more[i])
    {
      LiveAppend(cfg, log, e, i);
    }
    forall key | key in left
      ensures exists i :: 0 <= i < |more| && IsRowOf(cfg, more, i, key, left[key])
    {
      var i :| 0 <= i < |log| && IsRowOf(cfg, log, i, key, nonces[key]);
      LiveAppend(cfg, log, e, i);
      assert IsRowOf(cfg, more, i, key, left[key]);
    }
  }

  /** Admitting adds the row of its own admission. */
  lemma NoncesSpent(cfg: Config, nonces: Nonces, log: seq<Entry>, e: Entry)
    requires NoncesAreHistory(cfg, nonces, log) && LiveDistinct(cfg, log)
    requires e.Admitted? && (e.deviceId, e.nonce) !in nonces
    ensures NoncesAreHistory(cfg, nonces[(e.deviceId, e.nonce) := Expiry(cfg, e)], log + [e])
    ensures LiveDistinct(cfg, log + [e])
  {
    var more, spent, n := log + [e], nonces[(e.deviceId, e.nonce) := Expiry(cfg, e)], |log|;
    assert more[n] == e;
    forall i | 0 <= i < n ensures Live(cfg, more, i) <==> Live(cfg, log, i) { LiveAppend(cfg, log, e, i); }
    assert IsRowOf(cfg, more, n, (e.deviceId, e.nonce), Expiry(cfg, e));
    forall key | key in spent
      ensures exists i :: 0 <= i < |more| && IsRowOf(cfg, more, i, key, spent[key])
    {
      if key in nonces {
        var i :| 0 <= i < n && IsRowOf(cfg, log, i, key, nonces[key]);
        assert IsRowOf(cfg, more, i, key, spent[key]);
      }
    }
    DistinctAppend(cfg, log, e);
  }

  // ---- The device table ----

  /** The uniqueness constraint on keys never fires on enrollment. */
  lemma EnrollmentNeverCollides(p: Primitives, devices: Devices, pubkey: Bytes)
    requires KeysDerived(p, devices)
    ensures !KeyTaken(devices, DeviceIdFor(p, pubkey), pubkey)
  {
  }

  /** Steps on the device table match their log entry. */
  lemma DevicesFollow(devices: Devices, left: Devices, log: seq<Entry>, e: Entry)
    requires DevicesAreHistory(devices, log)
    requires forall d: string :: Active(left, d) <==>
               e == Paired(d) || (Active(devices, d) && e != Revoked(d) && e != Deleted(d))
    ensures DevicesAreHistory(left, log + [e])
  {
    forall d: string ensures Active(left, d) <==> Trusted(log + [e], d, |log| + 1) { TrustedAppend(log, e, d); }
  }

  // ---- Steps ----

  /** What an entry must say of the change to the tables it records. */
  ghost predicate Records(db: Db, left: Db, e: Entry)
  {
    && !e.Admitted?
    && (forall key :: key in left.nonces ==> key in db.nonces && left.nonces[key] == db.nonces[key])
    && (forall key :: key in db.nonces ==> (key in left.nonces <==> !RemovesRow(e, key, db.nonces[key])))
    && (forall d: string :: Active(left.devices, d) <==>
          e == Paired(d) || (Active(db.devices, d) && e != Revoked(d) && e != Deleted(d)))
  }

  /** A step whose entry records its change keeps the invariant. */
  lemma EntryKeeps(p: Primitives, cfg: Config, s: State, db: Db, e: Entry, at: int)
    requires Inv(p, cfg, s, at) && Records(s.db, db, e) && KeysDerived(p, db.devices)
    requires e.Swept? ==> e.at <= at
    ensures Inv(p, cfg, s.(db := db, log := s.log + [e]), at)
  {
    RowsFollow(cfg, s.db.nonces, db.nonces, s.log, e);
    DevicesFollow(s.db.devices, db.devices, s.log, e);
    hide NoncesAreHistory, DevicesAreHistory, KeysDerived, Records;
    DistinctAppend(cfg, s.log, e);
    SoundAppend(cfg, s.log, e);
    RememberAppend(p, cfg, s.handlers, s.log, e);
  }

  /** What passing the first checks means. */
  lemma GatePasses(cfg: Config, db: Db, r: Incoming, limiterOk: bool, now: int, f: InFlight)
    ensures Gate(cfg, db, r, limiterOk, now) == Ok(f) <==>
            && !r.hasQuery
            && (r.contentLength.Some? ==> r.contentLength.value <= cfg.maxBody)
            && ParseAuthHeaders(r.headers) == Ok(f.headers)
            && f.httpMethod == r.httpMethod && f.path == r.path && f.now == now
            && f.headers.deviceId in db.devices && f.device == db.devices[f.headers.deviceId]
            && f.device.revokedAt.None?
            && limiterOk
            && Fresh(f.headers.timestamp, now, cfg.skew)
  {
    hide ParseAuthHeaders, Fresh;
  }

  lemma ArriveKeeps(p: Primitives, cfg: Config, s: State, rid: nat, request: Incoming, limiterOk: bool, at: int)
    requires Inv(p, cfg, s, at) && rid !in s.handlers
    ensures Inv(p, cfg, ArriveStep(cfg, s, rid, request, limiterOk, at), at)
  {
    hide Gate, ParseAuthHeaders;
    var g := Gate(cfg, s.db, request, limiterOk, at);
    if g.Ok? {
      GatePasses(cfg, s.db, request, limiterOk, at, g.value);
      LookupKeeps(p, cfg, s, rid, g.value, at);
    }
  }

  /** The entry of a lookup that found an active row. */
  lemma LookupLogged(p: Primitives, cfg: Config, s: State, d: string, at: int)
    requires Inv(p, cfg, s, at) && Active(s.db.devices, d)
    ensures LookedUpAt(s.log + [LookedUp(d)], d, at, |s.log|)
  {
    hide NoncesAreHistory, LiveDistinct, AdmissionsSound, HandlersRemember, VisitorsAdmitted, KeysDerived;
    TrustedEarlier(s.log, LookedUp(d), d, |s.log|);
  }

  lemma LookupKeeps(p: Primitives, cfg: Config, s: State, rid: nat, f: InFlight, at: int)
    requires Inv(p, cfg, s, at) && rid !in s.handlers
    requires f.headers.deviceId in s.db.devices && f.device == s.db.devices[f.headers.deviceId]
    requires f.device.revokedAt.None? && Fresh(f.headers.timestamp, at, cfg.skew) && f.now == at
    ensures var e := LookedUp(f.device.deviceId);
      Inv(p, cfg, s.(handlers := s.handlers[rid := Reading(f, |s.log|)], log := s.log + [e]), at)
  {
    var e := LookedUp(f.device.deviceId);
    EntryKeeps(p, cfg, s, s.db, e, at);
    LookupLogged(p, cfg, s, f.device.deviceId, at);
    assert f.device.deviceId == DeviceIdFor(p, f.device.pubkey);
    hide NoncesAreHistory, LiveDistinct, AdmissionsSound, DevicesAreHistory, LookedUpAt, Fresh, KeysDerived,
         DeviceIdFor;
    RememberNew(p, cfg, s.handlers, s.log + [e], rid, Reading(f, |s.log|));
    hide HandlersRemember, HandlerRemembers;
  }

  lemma RememberNew(p: Primitives, cfg: Config, handlers: map<nat, Handler>, log: seq<Entry>, rid: nat, h: Handler)
    requires HandlersRemember(p, cfg, handlers, log) && HandlerRemembers(p, cfg, log, h.f, h.lookup)
    ensures HandlersRemember(p, cfg, handlers[rid := h], log)
  {
    hide HandlerRemembers;
  }

  lemma CompleteKeeps(p: Primitives, cfg: Config, s: State, rid: nat, body: Bytes, at: int)
    requires Inv(p, cfg, s, at) && rid in s.handlers
    ensures Inv(p, cfg, CompleteStep(p, cfg, s, rid, s.handlers[rid].f, s.handlers[rid].lookup, body), at)
  {
    hide BodyChecks, NoncesAreHistory, LiveDistinct, AdmissionsSound, LookedUpAt, DevicesAreHistory, Fresh;
    var f, lookup := s.handlers[rid].f, s.handlers[rid].lookup;
    if Verdict(p, cfg, s.db, f, body).Ok? {
      var e := AdmittedEntry(f, lookup);
      NoncesSpent(cfg, s.db.nonces, s.log, e);
      DevicesFollow(s.db.devices, s.db.devices, s.log, e);
      assert HandlerRemembers(p, cfg, s.log, f, lookup);
      SoundAppend(cfg, s.log, e);
      RememberAppend(p, cfg, s.handlers, s.log, e);
    }
  }

  /** An enrollment that raises changes nothing. */
  lemma EnrollKeeps(p: Primitives, cfg: Config, s: State, t: Timed)
    requires Inv(p, cfg, s, t.at) && t.action.Enroll?
    ensures Inv(p, cfg, Step(p, cfg, s, t), t.at)
  {
    hide NoncesAreHistory, LiveDistinct, AdmissionsSound, DevicesAreHistory, HandlersRemember, DeviceIdFor, Encodable;
    var d := DeviceIdFor(p, t.action.pubkey);
    if !Refuses(s.db.devices, d, t.action.pubkey, t.action.name) {
      EntryKeeps(p, cfg, s, Step(p, cfg, s, t).db, Paired(d), t.at);
    }
  }

  /** Sweeps, deletions and revocations. */
  lemma TableStepKeeps(p: Primitives, cfg: Config, s: State, t: Timed)
    requires Inv(p, cfg, s, t.at)
    requires t.action.SweepNonces? || t.action.DeleteDevice? || t.action.RevokeDevice?
    ensures Inv(p, cfg, Step(p, cfg, s, t), t.at)
  {
    var db := Step(p, cfg, s, t).db;
    hide NoncesAreHistory, LiveDistinct, AdmissionsSound, DevicesAreHistory, HandlersRemember, DeviceIdFor;
    match t.action
    case SweepNonces => EntryKeeps(p, cfg, s, db, Swept(t.at), t.at);
    case DeleteDevice(d) => EntryKeeps(p, cfg, s, db, Deleted(d), t.at);
    case RevokeDevice(d) => EntryKeeps(p, cfg, s, db, Revoked(d), t.at);
  }

  lemma FinishKeeps(p: Primitives, cfg: Config, s: State, rid: nat, at: int)
    requires Inv(p, cfg, s, at) && rid in s.handlers
    ensures Inv(p, cfg, FinishStep(s, rid, s.handlers[rid].f), at)
  {
    hide NoncesAreHistory, LiveDistinct, AdmissionsSound, HandlerRemembers, Trusted;
    var next := FinishStep(s, rid, s.handlers[rid].f);
    forall d: string ensures Active(next.db.devices, d) <==> Active(s.db.devices, d) {}
  }

  lemma StepKeeps(p: Primitives, cfg: Config, s: State, t: Timed, at: int)
    requires Inv(p, cfg, s, at) && at <= t.at
    ensures Inv(p, cfg, Step(p, cfg, s, t), t.at)
  {
    hide NoncesAreHistory, LiveDistinct, AdmissionsSound, HandlerRemembers, DevicesAreHistory, KeysDerived;
    assert Inv(p, cfg, s, t.at);
    match t.action
    case Arrive(rid, request, limiterOk) =>
      if rid !in s.handlers { ArriveKeeps(p, cfg, s, rid, request, limiterOk, t.at); }
    case Complete(rid, body) =>
      if rid in s.handlers { CompleteKeeps(p, cfg, s, rid, body, t.at); }
    case Finish(rid) =>
      if rid in s.handlers { FinishKeeps(p, cfg, s, rid, t.at); }
    case SweepNonces => TableStepKeeps(p, cfg, s, t);
    case DeleteDevice(_) => TableStepKeeps(p, cfg, s, t);
    case RevokeDevice(_) => TableStepKeeps(p, cfg, s, t);
    case Enroll(_, _, _) => EnrollKeeps(p, cfg, s, t);
    case Abandon(_) =>
    case Restart =>
  }

  /** Every state of every run with a clock that does not go back. */
  lemma {:induction false} RunKeeps(p: Primitives, cfg: Config, s: State, run: seq<Timed>, from: int)
    returns (at: int)
    requires Inv(p, cfg, s, from) && NonDecreasing(run, from)
    ensures Inv(p, cfg, Run(p, cfg, s, run), at)
    decreases |run|
  {
    if run == [] {
      at := from;
    } else {
      StepKeeps(p, cfg, s, run[0], from);
      at := RunKeeps(p, cfg, Step(p, cfg, s, run[0]), run[1..], run[0].at);
    }
  }

  lemma InitialHolds(p: Primitives, cfg: Config, from: int)
    ensures Inv(p, cfg, Initial, from)
  {
  }
}
