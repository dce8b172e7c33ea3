/**
 The object that owns the pairing window. Its methods are the stretches of code between suspension
 points; each takes the state it finds to the state that the step functions give.
 */
module PairingManager {
  import opened Prelude
  import opened Base64Url
  import opened Canonical
  import opened PairingCode
  import opened Crypto
  import opened Auth
  import opened Store
  import opened Unicode
  import opened Pairing

  /** The window's own record: only the attempts change while it exists. */
  class OpenWindow {
    const id: nat
    const codeHash: Bytes
    const deadline: real
    var attemptsLeft: int

    constructor (id: nat, codeHash: Bytes, deadline: real, attempts: int)
      ensures this.id == id && this.codeHash == codeHash && this.deadline == deadline && attemptsLeft == attempts
    {
      this.id, this.codeHash, this.deadline, attemptsLeft := id, codeHash, deadline, attempts;
    }
  }

  /** What the database makes of an enrollment when its own input and output may also fail. */
  function OutcomeOf(devices: Devices, e: Enrollment, upsertFails: bool, auditFails: bool): StoreOutcome
  {
    if upsertFails || Refuses(devices, e.deviceId, e.pubkey, e.name) then UpsertRaises
    else if auditFails then AuditRaises
    else Saved
  }

  function TablesOf(db: Db, e: Enrollment, now: int, outcome: StoreOutcome): Db
  {
    if outcome.UpsertRaises? then db else Upsert(db, e.deviceId, e.pubkey, e.name, e.platform, now)
  }

  class PairingManager {
    const p: Primitives
    const cfg: Config
    const store: Store
    var phase: Phase
    var window: OpenWindow?
    var pending: Option<nat>
    var expiry: ExpiryTask
    var decisions: map<nat, Decision>
    var parked: map<nat, Parked>
    var windows: nat
    var events: seq<Event>
    ghost var log: seq<Entry>

    ghost function Snapshot(): State
      reads this, window
    {
      var w := if window == null then None
               else Some(Window(window.id, window.codeHash, window.deadline, window.attemptsLeft));
      State(phase, w, pending, expiry, decisions, parked, windows, events, log)
    }

    constructor (p: Primitives, cfg: Config, store: Store)
      ensures Snapshot() == Initial && this.p == p && this.cfg == cfg && this.store == store
    {
      this.p, this.cfg, this.store := p, cfg, store;
      phase, window, pending, expiry := Idle, null, None, NoTask;
      decisions, parked, windows, events, log := map[], map[], 0, [], [];
    }

    method Begin(windowS: Option<int>, code: string, now: real) returns (r: Result<(), ErrorCode>)
      modifies this
      ensures (Snapshot(), r) == Begun(p, cfg, old(Snapshot()), windowS, code, now)
      ensures window == old(window) || fresh(window)
    {
      if phase != Idle { return Err(PairingDisabled); }
      var length := if windowS.Some? && windowS.value != 0 then windowS.value else cfg.windowS;
      if length < 15 || 600 < length { return Err(BadRequest); }
      var deadline := now + length as real;
      window := new OpenWindow(windows, HashCode(p, code), deadline, cfg.maxAttempts);
      windows := windows + 1;
      phase := Open;
      expiry := Task(window.id, deadline, true);
      events := events + [PairOpened];
      log := log + [WindowOpened(window.id, window.codeHash, deadline, now)];
      r := Ok(());
    }

    method CloseLocked(reason: string)
      modifies this
      ensures Snapshot() == Closed(old(Snapshot()), reason)
      ensures window == null
    {
      expiry := NoTask;
      var was := pending;
      pending, window, phase := None, null, Idle;
      if was.Some? && was.value in decisions && decisions[was.value].Undecided? {
        decisions := decisions[was.value := Decided(false)];
        log := log + [Settled(was.value)];
      }
      events := events + [PairClosed(reason)];
    }

    method Cancel(reason: string)
      modifies this
      ensures Snapshot() == Closed(old(Snapshot()), reason)
    {
      CloseLocked(reason);
    }

    method Shutdown()
      modifies this
      ensures Snapshot() == ShutDown(old(Snapshot()))
    {
      if phase != Idle { CloseLocked("shutdown"); }
    }

    /** The expiry task wakes up. */
    method Expire(now: real)
      requires ExpiryDue(Snapshot(), now)
      modifies this
      ensures Snapshot() == Expired(old(Snapshot()))
    {
      expiry := expiry.(sleeping := false);
      if phase == Open { CloseLocked("expired"); }
    }

    method FinishLocked(sid: nat, opening: nat, e: Enrollment, now: int, upsertFails: bool, auditFails: bool)
        returns (r: Result<Enrollment, ErrorCode>)
      requires store.Valid()
      modifies this, store
      ensures store.Valid()
      ensures var outcome := OutcomeOf(old(store.devices), e, upsertFails, auditFails);
              && (Snapshot(), r) == Finished(old(Snapshot()), sid, opening, e, outcome)
              && store.Tables() == TablesOf(old(store.Tables()), e, now, outcome)
              && (outcome.Saved? ==>
                    store.audit == old(store.audit)
                        + [AuditRow(store.lastAuditId, now, Some(e.deviceId), "pair", "ok")])
              && (!outcome.Saved? ==> store.audit == old(store.audit))
    {
      if upsertFails {
        log := log + [Failed(sid)];
        return Err(InternalError);
      }
      var record := store.UpsertDevice(e.deviceId, e.pubkey, e.name, e.platform, now);
      if record.None? {
        log := log + [Failed(sid)];
        return Err(InternalError);
      }
      log := log + [Stored(sid, opening, e)];
      if auditFails {
        log := log + [AuditFailed(opening), Failed(sid)];
        assert log == old(log) + [Stored(sid, opening, e), AuditFailed(opening), Failed(sid)];
        return Err(InternalError);
      }
      store.AddAudit(now, "pair", "ok", Some(e.deviceId));
      events := events + [PairCompleted(e.deviceId)];
      CloseLocked("paired");
      r := Ok(e);
    }

    /** The checks of a submission: what it comes to. */
    method Attempt(args: SubmitArgs, now: real) returns (a: Pairing.Attempt)
      modifies this, window
      ensures (Snapshot(), a) == Attempted(p, cfg, old(Snapshot()), args, now)
      ensures window == old(window) || window == null
    {
      hide Decode, Encode, OfLength, NormalizeCode, CleanName, CleanPlatform, HashCode, ServicePair, DeviceIdFor,
           Closed;
      var pubkey := OfLength(Decode(args.pubkeyB64), Some(PUBKEY_BYTES));
      if pubkey.None? { return Refused(BadRequest); }
      var proof := OfLength(Decode(args.proofB64), Some(SIGNATURE_BYTES));
      if proof.None? { return Refused(BadRequest); }
      var supplied := NormalizeCode(args.code);
      if phase == AwaitingApproval { return Refused(PairingDisabled); }
      if phase != Open || window == null { return Refused(PairingDisabled); }
      if now >= window.deadline {
        CloseLocked("expired");
        return Refused(PairingExpired);
      }
      if HashCode(p, supplied) != window.codeHash {
        window.attemptsLeft := window.attemptsLeft - 1;
        log := log + [WrongCode(window.id)];
        if window.attemptsLeft <= 0 { CloseLocked("too_many_attempts"); }
        return Refused(InvalidCode);
      }
      var message := ServicePair(Pair(supplied, Encode(pubkey.value), cfg.serverFp));
      if message.Err? { return Refused(InternalError); }
      if !p.verify(pubkey.value, message.value, proof.value) {
        CloseLocked("bad_proof");
        return Refused(InvalidSignature);
      }
      a := Good(EnrollmentOf(p, pubkey.value, args), proof.value);
    }

    /** A submission up to its wait for the operator (None), or to its end. */
    method Submit(sid: nat, args: SubmitArgs, now: real, wall: int, upsertFails: bool, auditFails: bool)
        returns (r: Option<Result<Enrollment, ErrorCode>>)
      requires store.Valid()
      modifies this, window, store
      ensures store.Valid()
      ensures exists outcome ::
                && (Snapshot(), r) == Submitted(p, cfg, old(Snapshot()), sid, args, now, outcome)
                && (Attempted(p, cfg, old(Snapshot()), args, now).1.Good? && !cfg.requireApproval ==>
                      var e := Attempted(p, cfg, old(Snapshot()), args, now).1.enrollment;
                      && outcome == OutcomeOf(old(store.devices), e, upsertFails, auditFails)
                      && store.Tables() == TablesOf(old(store.Tables()), e, wall, outcome))
      ensures Attempted(p, cfg, old(Snapshot()), args, now).1.Refused? || cfg.requireApproval ==>
                store.Tables() == old(store.Tables())
    {
      ghost var before := Snapshot();
      var a := Attempt(args, now);
      if a.Refused? {
        assert (Snapshot(), Some(Err(a.error))) == Submitted(p, cfg, before, sid, args, now, Saved);
        return Some(Err(a.error));
      }
      log := log + [Matched(sid, window.id, NormalizeCode(args.code), a.proof, a.enrollment, now)];
      if !cfg.requireApproval {
        ghost var outcome := OutcomeOf(store.devices, a.enrollment, upsertFails, auditFails);
        var done := FinishLocked(sid, window.id, a.enrollment, wall, upsertFails, auditFails);
        assert (Snapshot(), Some(done)) == Submitted(p, cfg, before, sid, args, now, outcome);
        return Some(done);
      }
      phase, pending := AwaitingApproval, Some(sid);
      decisions := decisions[sid := Undecided];
      parked := parked[sid := Parked(window.id, a.enrollment, now, false)];
      events := events + [PairRequest(sid)];
      assert (Snapshot(), None) == Submitted(p, cfg, before, sid, args, now, Saved);
      r := None;
    }

    method Resolve(approved: bool) returns (accepted: bool)
      modifies this
      ensures (Snapshot(), accepted) == Resolved(old(Snapshot()), approved)
    {
      if phase != AwaitingApproval || pending.None? { return false; }
      if pending.value !in decisions || !decisions[pending.value].Undecided? { return false; }
      decisions := decisions[pending.value := Decided(approved)];
      log := log + [Answered(pending.value, approved), Settled(pending.value)];
      accepted := true;
    }

    method ApprovalTimer(sid: nat, now: real)
      requires TimerDue(cfg, Snapshot(), sid, now)
      modifies this
      ensures Snapshot() == TimedOutState(old(Snapshot()), sid)
    {
      if sid in decisions && decisions[sid].Undecided? { decisions := decisions[sid := Cancelled]; }
      parked := parked[sid := parked[sid].(timedOut := true)];
    }

    /** The handler of a waiting submission is cancelled. */
    method Abandon(sid: nat)
      requires sid in parked
      modifies this
      ensures Snapshot() == AbandonedState(old(Snapshot()), sid)
    {
      if sid in decisions && decisions[sid].Undecided? { decisions := decisions[sid := Cancelled]; }
      parked := parked - {sid};
      log := log + [Abandoned(sid)];
    }

    /** A waiting submission goes on after its decision or its timeout. */
    method Resume(sid: nat, wall: int, upsertFails: bool, auditFails: bool) returns (r: Result<Enrollment, ErrorCode>)
      requires store.Valid() && CanResume(Snapshot(), sid)
      modifies this, store
      ensures store.Valid()
      ensures var me := old(parked)[sid];
              var outcome := OutcomeOf(old(store.devices), me.enrollment, upsertFails, auditFails);
              && (Snapshot(), r) == Resumed(old(Snapshot()), sid, outcome)
              && store.Tables() ==
                   if me.timedOut || !old(decisions)[sid].approved then old(store.Tables())
                   else TablesOf(old(store.Tables()), me.enrollment, wall, outcome)
    {
      var me := parked[sid];
      parked := parked - {sid};
      if me.timedOut {
        CloseLocked("approval_timeout");
        return Err(PairingTimeout);
      }
      if !decisions[sid].approved {
        CloseLocked("denied");
        return Err(PairingDenied);
      }
      r := FinishLocked(sid, me.window, me.enrollment, wall, upsertFails, auditFails);
    }
  }
}
