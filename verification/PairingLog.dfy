/** The log tells what was done: each new entry comes from the action that calls for it. */
module PairingLog {
  import opened Prelude
  import opened Base64Url
  import opened PairingCode
  import opened Crypto
  import opened Unicode
  import opened Pairing
  import opened PairingProofs

  ghost predicate FromArgs(x: Entry, args: SubmitArgs)
    requires x.Matched?
  {
    && x.code == NormalizeCode(args.code)
    && Encode(x.enrollment.pubkey) == args.pubkeyB64 && Encode(x.proof) == args.proofB64
    && x.enrollment.name == CleanName(args.name) && x.enrollment.platform == CleanPlatform(args.platform)
  }

  /** Why an action may append an entry. */
  ghost predicate Explains(p: Primitives, cfg: Config, s: State, t: Timed, x: Entry)
  {
    match x
    case WindowOpened(_, codeHash, deadline, at) =>
      && t.action.Begin? && s.phase == Idle && at == t.at
      && codeHash == HashCode(p, t.action.code) && deadline == t.at + WindowLength(cfg, t.action.windowS) as real
    case WrongCode(window) =>
      && t.action.Submit? && s.phase == Open && s.window.Some? && s.window.value.id == window
      && t.at < s.window.value.deadline && HashCode(p, NormalizeCode(t.action.args.code)) != s.window.value.codeHash
    case Matched(sid, window, _, _, _, at) =>
      && t.action.Submit? && t.action.sid == sid && at == t.at && FromArgs(x, t.action.args)
      && s.phase == Open && s.window.Some? && s.window.value.id == window
    case Answered(sid, approved) => t.action == Resolve(approved) && s.phase == AwaitingApproval
        && s.pending == Some(sid)
    case Stored(sid, _, e) =>
      if t.action.Submit? then t.action.sid == sid && !cfg.requireApproval
      else
        t.action.Resume? && t.action.sid == sid && sid in s.parked && s.parked[sid].enrollment == e
        && !s.parked[sid].timedOut && sid in s.decisions && s.decisions[sid] == Decided(true)
    case Settled(sid) => s.pending == Some(sid)
    case Abandoned(sid) => t.action == Abandon(sid) && sid in s.parked
    case _ => t.action.Submit? || t.action.Resume?
  }

  /** The log only grows, by explained entries; a completed pairing is announced for a device stored with it. */
  ghost predicate Grows(p: Primitives, cfg: Config, s: State, t: Timed, next: State)
  {
    && s.log <= next.log && s.events <= next.events
    && (forall k :: |s.log| <= k < |next.log| ==> Explains(p, cfg, s, t, next.log[k]))
    && (forall k :: |s.events| <= k < |next.events| && next.events[k].PairCompleted? ==>
          |s.log| < |next.log| && StoresDevice(next.log[|s.log|..], next.events[k].deviceId))
  }

  ghost predicate StoresDevice(log: seq<Entry>, deviceId: string)
  {
    exists x :: x in log && x.Stored? && x.enrollment.deviceId == deviceId
  }

  lemma CloseGrows(p: Primitives, cfg: Config, s: State, t: Timed, reason: string)
    ensures Grows(p, cfg, s, t, Closed(s, reason))
  {
  }

  lemma CountGrows(p: Primitives, cfg: Config, s: State, t: Timed)
    requires t.action.Submit? && s.phase == Open && s.window.Some? && t.at < s.window.value.deadline
    requires HashCode(p, NormalizeCode(t.action.args.code)) != s.window.value.codeHash
    ensures Grows(p, cfg, s, t, WrongCounted(s)) && Grows(p, cfg, s, t, Closed(WrongCounted(s), "too_many_attempts"))
  {
    hide HashCode, NormalizeCode;
    var next := Closed(WrongCounted(s), "too_many_attempts");
    assert next.log[..|s.log|] == s.log && next.log[|s.log|] == WrongCode(s.window.value.id);
  }

  lemma RefusalGrows(p: Primitives, cfg: Config, s: State, t: Timed)
    requires t.action.Submit? && Attempted(p, cfg, s, t.action.args, t.at).1.Refused?
    ensures Grows(p, cfg, s, t, Attempted(p, cfg, s, t.action.args, t.at).0)
  {
    RefusalCases(p, cfg, s, t.action.args, t.at);
    assert Grows(p, cfg, s, t, s);
    hide Attempted, Closed, HashCode, NormalizeCode, Grows, WrongCounted;
    CloseGrows(p, cfg, s, t, "expired");
    CloseGrows(p, cfg, s, t, "bad_proof");
    if s.phase == Open && s.window.Some? && t.at < s.window.value.deadline
       && HashCode(p, NormalizeCode(t.action.args.code)) != s.window.value.codeHash
    {
      CountGrows(p, cfg, s, t);
    }
  }

  lemma FinishGrows(
      p: Primitives, cfg: Config, s: State, t: Timed, u: State, sid: nat, window: nat, e: Enrollment,
      outcome: StoreOutcome)
    requires Grows(p, cfg, s, t, u) && u.pending == s.pending && u.events == s.events
    requires Explains(p, cfg, s, t, Stored(sid, window, e)) && (t.action.Submit? || t.action.Resume?)
    ensures Grows(p, cfg, s, t, Finished(u, sid, window, e, outcome).0)
  {
    hide FromArgs, HashCode, NormalizeCode;
    var next := Finished(u, sid, window, e, outcome).0;
    assert next.log[|u.log|] == if outcome.UpsertRaises? then Failed(sid) else Stored(sid, window, e);
    if outcome.Saved? {
      assert next.log[|s.log|..][|u.log| - |s.log|] == Stored(sid, window, e);
    }
  }

  lemma MatchFromArgs(p: Primitives, cfg: Config, s: State, args: SubmitArgs, now: real, sid: nat)
    requires Attempted(p, cfg, s, args, now).1.Good?
    ensures var a := Attempted(p, cfg, s, args, now).1;
            FromArgs(Matched(sid, s.window.value.id, NormalizeCode(args.code), a.proof, a.enrollment, now), args)
  {
    var a := Attempted(p, cfg, s, args, now).1;
    DecodeIsInverse(args.pubkeyB64, a.enrollment.pubkey);
    DecodeIsInverse(args.proofB64, a.proof);
    hide HashCode, NormalizeCode, Decode, Encode, DeviceIdFor, Closed, CleanName, CleanPlatform;
  }

  lemma MatchGrows(p: Primitives, cfg: Config, s: State, t: Timed)
    requires t.action.Submit? && Attempted(p, cfg, s, t.action.args, t.at).1.Good?
    ensures var a := Attempted(p, cfg, s, t.action.args, t.at).1;
            Grows(p, cfg, s, t, MatchedState(s, t.action.sid, NormalizeCode(t.action.args.code), a.proof,
                a.enrollment, t.at))
  {
    MatchFromArgs(p, cfg, s, t.action.args, t.at, t.action.sid);
    hide Attempted, FromArgs, HashCode, NormalizeCode;
  }

  lemma SubmitGrows(p: Primitives, cfg: Config, s: State, t: Timed)
    requires t.action.Submit? && Enabled(cfg, s, t)
    ensures Grows(p, cfg, s, t, Step(p, cfg, s, t))
  {
    hide Attempted, Finished, Grows, Enabled;
    var args := t.action.args;
    var a := Attempted(p, cfg, s, args, t.at).1;
    if a.Refused? {
      RefusalGrows(p, cfg, s, t);
    } else {
      hide FromArgs, HashCode, NormalizeCode;
      MatchGrows(p, cfg, s, t);
      var u := MatchedState(s, t.action.sid, NormalizeCode(args.code), a.proof, a.enrollment, t.at);
      if cfg.requireApproval {
        ParkGrows(p, cfg, s, t, u, a.enrollment);
      } else {
        FinishGrows(p, cfg, s, t, u, t.action.sid, s.window.value.id, a.enrollment, t.action.outcome);
      }
    }
  }

  lemma ParkGrows(p: Primitives, cfg: Config, s: State, t: Timed, u: State, e: Enrollment)
    requires Grows(p, cfg, s, t, u) && u.events == s.events && t.action.Submit? && u.window.Some?
    ensures Grows(p, cfg, s, t, ParkedState(u, t.action.sid, e, t.at))
  {
    hide Explains;
  }

  lemma ResumeGrows(p: Primitives, cfg: Config, s: State, t: Timed)
    requires t.action.Resume? && Enabled(cfg, s, t)
    ensures Grows(p, cfg, s, t, Step(p, cfg, s, t))
  {
    var sid := t.action.sid;
    var me := s.parked[sid];
    var rest := s.(parked := s.parked - {sid});
    CloseGrows(p, cfg, rest, t, "approval_timeout");
    CloseGrows(p, cfg, rest, t, "denied");
    if !me.timedOut && s.decisions[sid].approved {
      assert Grows(p, cfg, s, t, rest);
      FinishGrows(p, cfg, s, t, rest, sid, me.window, me.enrollment, t.action.outcome);
    }
    hide Finished, Closed;
  }

  /** Every step adds to the log only what its action explains. */
  lemma LogTellsActions(p: Primitives, cfg: Config, s: State, t: Timed)
    requires Enabled(cfg, s, t)
    ensures Grows(p, cfg, s, t, Step(p, cfg, s, t))
  {
    match t.action
    case Submit(_, _, _) => SubmitGrows(p, cfg, s, t);
    case Resume(_, _) => ResumeGrows(p, cfg, s, t);
    case Cancel(reason) => CloseGrows(p, cfg, s, t, reason);
    case Shutdown => CloseGrows(p, cfg, s, t, "shutdown");
    case Expire => CloseGrows(p, cfg, s.(expiry := s.expiry.(sleeping := false)), t, "expired"); hide Closed;
    case _ => {}
  }

  /** What may end a window: the operator, its time, its attempts, a bad proof, or a submission that is through. */
  ghost predicate MayClose(p: Primitives, cfg: Config, s: State, t: Timed)
    requires s.window.Some?
  {
    var w := s.window.value;
    match t.action
    case Cancel(_) => true
    case Shutdown => true
    case Expire => s.phase == Open && t.at >= w.deadline
    case Resume(sid, outcome) =>
      sid in s.parked && (s.parked[sid].timedOut || sid !in s.decisions || s.decisions[sid] != Decided(true)
          || outcome.Saved?)
    case Submit(_, args, outcome) =>
      var right := HashCode(p, NormalizeCode(args.code)) == w.codeHash;
      s.phase == Open && (t.at >= w.deadline || right || w.attemptsLeft <= 1)
    case _ => false
  }

  lemma SubmitCloses(p: Primitives, cfg: Config, s: State, t: Timed)
    requires Enabled(cfg, s, t) && t.action.Submit?
    requires s.window.Some? && s.phase != Idle && Step(p, cfg, s, t).phase == Idle
    ensures MayClose(p, cfg, s, t)
  {
    var a := Attempted(p, cfg, s, t.action.args, t.at);
    if a.1.Refused? {
      RefusalCases(p, cfg, s, t.action.args, t.at);
    } else {
      assert HashCode(p, NormalizeCode(t.action.args.code)) == s.window.value.codeHash by { GoodIsRight(p, cfg, s, t); }
    }
    hide Attempted, HashCode, NormalizeCode;
  }

  lemma GoodIsRight(p: Primitives, cfg: Config, s: State, t: Timed)
    requires t.action.Submit? && Attempted(p, cfg, s, t.action.args, t.at).1.Good?
    ensures HashCode(p, NormalizeCode(t.action.args.code)) == s.window.value.codeHash
  {
    hide HashCode, NormalizeCode, Closed;
  }

  /** A window that awaits approval is not ended by its expiry, and an open one not before its time. */
  lemma WindowCloses(p: Primitives, cfg: Config, s: State, t: Timed)
    requires Shape(cfg, s) && Enabled(cfg, s, t) && s.phase != Idle && Step(p, cfg, s, t).phase == Idle
    ensures MayClose(p, cfg, s, t)
  {
    match t.action
    case Submit(_, _, _) => SubmitCloses(p, cfg, s, t);
    case _ => hide WrongCodes;
  }

  // ---- The two halves of finishing ----

  /** After the device row is written, while the audit row is on its way. */
  function HalfFinished(s: State, sid: nat, window: nat, e: Enrollment): State
  {
    s.(log := s.log + [Stored(sid, window, e)])
  }

  function OtherHalf(s: State, sid: nat, window: nat, e: Enrollment, audited: bool): State
  {
    if audited then Closed(s.(events := s.events + [PairCompleted(e.deviceId)]), "paired")
    else s.(log := s.log + [AuditFailed(window), Failed(sid)])
  }

  /** Finishing is its two halves. */
  lemma FinishedInHalves(s: State, sid: nat, window: nat, e: Enrollment, audited: bool)
    ensures Finished(s, sid, window, e, if audited then Saved else AuditRaises).0
         == OtherHalf(HalfFinished(s, sid, window, e), sid, window, e, audited)
  {
    assert s.log + [Stored(sid, window, e)] + [AuditFailed(window), Failed(sid)]
        == s.log + [Stored(sid, window, e), AuditFailed(window), Failed(sid)];
  }

  /**
   All that needs no lock and can come between the halves comes to the same before the first: a timer
   to the same state, a cancelled handler to the same but for the order of two entries.
   */
  lemma BetweenHalves(s: State, sid: nat, window: nat, e: Enrollment, other: nat)
    requires other in s.parked
    ensures TimedOutState(HalfFinished(s, sid, window, e), other)
              == HalfFinished(TimedOutState(s, other), sid, window, e)
    ensures AbandonedState(HalfFinished(s, sid, window, e), other).(log := s.log)
         == HalfFinished(AbandonedState(s, other), sid, window, e).(log := s.log)
    ensures AbandonedState(HalfFinished(s, sid, window, e), other).log == s.log
              + [Stored(sid, window, e), Abandoned(other)]
    ensures HalfFinished(AbandonedState(s, other), sid, window, e).log == s.log
              + [Abandoned(other), Stored(sid, window, e)]
  {
  }

  predicate NewlyStored(s: State, next: State, i: nat) { |s.log| <= i < |next.log| && next.log[i].Stored? }

  /** A step stores at most one device. */
  lemma StoresOnce(p: Primitives, cfg: Config, s: State, t: Timed, i: nat, j: nat)
    requires Enabled(cfg, s, t)
    requires NewlyStored(s, Step(p, cfg, s, t), i) && NewlyStored(s, Step(p, cfg, s, t), j)
    ensures i == j
  {
    match t.action
    case Submit(sid, args, outcome) => SubmitStoresOnce(p, cfg, s, t, i, j);
    case Resume(sid, outcome) =>
      if CanResume(s, sid) {
        FinishStoresOnce(s.(parked := s.parked - {sid}), sid, s.parked[sid].window, s.parked[sid].enrollment, outcome);
      }
    case _ => {}
  }

  lemma FinishStoresOnce(s: State, sid: nat, window: nat, e: Enrollment, outcome: StoreOutcome)
    ensures var log := Finished(s, sid, window, e, outcome).0.log;
            && s.log <= log && forall k :: |s.log| <= k < |log| && log[k].Stored? ==> k == |s.log|
  {
  }

  lemma SubmitStoresOnce(p: Primitives, cfg: Config, s: State, t: Timed, i: nat, j: nat)
    requires Enabled(cfg, s, t) && t.action.Submit?
    requires NewlyStored(s, Step(p, cfg, s, t), i) && NewlyStored(s, Step(p, cfg, s, t), j)
    ensures i == j
  {
    hide Attempted, Finished, NormalizeCode, HashCode;
    var a := Attempted(p, cfg, s, t.action.args, t.at).1;
    if a.Refused? {
      RefusalCases(p, cfg, s, t.action.args, t.at);
    } else {
      var u := MatchedState(s, t.action.sid, NormalizeCode(t.action.args.code), a.proof, a.enrollment, t.at);
      FinishStoresOnce(u, t.action.sid, s.window.value.id, a.enrollment, t.action.outcome);
    }
  }

  lemma SubmitStoresName(p: Primitives, cfg: Config, s: State, t: Timed, i: nat)
    requires Enabled(cfg, s, t) && t.action.Submit?
    requires var log := Step(p, cfg, s, t).log; |s.log| <= i < |log| && log[i].Stored?
    ensures Encodable(Step(p, cfg, s, t).log[i].enrollment.name)
  {
    hide Attempted, NormalizeCode, CleanName, Encodable, Finished, HashCode;
    var args := t.action.args;
    var a := Attempted(p, cfg, s, args, t.at).1;
    if a.Refused? {
      RefusalCases(p, cfg, s, args, t.at);
    } else {
      NameCleaned(p, cfg, s, args, t.at);
      var u := MatchedState(s, t.action.sid, NormalizeCode(args.code), a.proof, a.enrollment, t.at);
      FinishStoresIt(u, t.action.sid, s.window.value.id, a.enrollment, t.action.outcome);
    }
  }

  lemma FinishStoresIt(s: State, sid: nat, window: nat, e: Enrollment, outcome: StoreOutcome)
    ensures var log := Finished(s, sid, window, e, outcome).0.log;
            s.log <= log
            && forall k :: |s.log| <= k < |log| && log[k].Stored? ==> log[k].enrollment == e && !outcome.UpsertRaises?
  {
  }

  /** What a step stores has a name that the database can hold. */
  lemma StoredName(p: Primitives, cfg: Config, s: State, t: Timed, i: nat)
    requires Enabled(cfg, s, t)
    requires var log := Step(p, cfg, s, t).log; |s.log| <= i < |log| && log[i].Stored?
    ensures Encodable(Step(p, cfg, s, t).log[i].enrollment.name)
  {
    match t.action
    case Submit(_, _, _) => SubmitStoresName(p, cfg, s, t, i);
    case Resume(sid, outcome) =>
      var me := s.parked[sid];
      FinishStoresIt(s.(parked := s.parked - {sid}), sid, me.window, me.enrollment, outcome);
      hide Finished, Encodable;
    case _ => {}
  }

  lemma NameCleaned(p: Primitives, cfg: Config, s: State, args: SubmitArgs, now: real)
    requires Attempted(p, cfg, s, args, now).1.Good?
    ensures Attempted(p, cfg, s, args, now).1.enrollment.name == CleanName(args.name)
  {
    hide CleanName, NormalizeCode, HashCode, Closed;
  }
}
