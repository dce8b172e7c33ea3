/** What each caller of the pairing window is told, by what was there before and by what was logged. */
module PairingAnswers {
  import opened Prelude
  import opened Base64Url
  import opened Canonical
  import opened PairingCode
  import opened Crypto
  import opened Auth
  import opened Unicode
  import opened Pairing
  import opened PairingProofs
  import opened PairingTheorems
  import opened PairingLog

  // ---- The texts of a submission ----

  ghost predicate Spells(text: string, b: Bytes, n: nat) { |b| == n && Encode(b) == text }

  ghost predicate WellFormed(args: SubmitArgs)
  {
    (exists key :: Spells(args.pubkeyB64, key, PUBKEY_BYTES))
        && (exists proof :: Spells(args.proofB64, proof, SIGNATURE_BYTES))
  }

  lemma SpellsExactly(text: string, b: Bytes, n: nat)
    ensures OfLength(Decode(text), Some(n)) == Some(b) <==> Spells(text, b, n)
  {
    DecodeIsInverse(text, b);
  }

  lemma SpellsSome(text: string, n: nat)
    ensures OfLength(Decode(text), Some(n)).Some? <==> exists b :: Spells(text, b, n)
  {
    if b :| Spells(text, b, n) { SpellsExactly(text, b, n); }
    if OfLength(Decode(text), Some(n)).Some? { SpellsExactly(text, OfLength(Decode(text), Some(n)).value, n); }
    hide Decode, Encode;
  }

  /** What the proof must sign. */
  function ProofMessage(cfg: Config, args: SubmitArgs): Result<string, CanonicalError>
  {
    ServicePair(Pair(NormalizeCode(args.code), args.pubkeyB64, cfg.serverFp))
  }

  /** The proof is a signature by the submitted key over code, key and server. */
  ghost predicate Proves(p: Primitives, cfg: Config, args: SubmitArgs, key: Bytes, proof: Bytes)
  {
    && Spells(args.pubkeyB64, key, PUBKEY_BYTES) && Spells(args.proofB64, proof, SIGNATURE_BYTES)
    && ProofMessage(cfg, args).Ok? && p.verify(key, ProofMessage(cfg, args).value, proof)
  }

  predicate RightCode(p: Primitives, s: State, args: SubmitArgs)
  {
    s.window.Some? && HashCode(p, NormalizeCode(args.code)) == s.window.value.codeHash
  }

  /** An open window, in time. */
  predicate InTime(s: State, now: real) { s.phase == Open && s.window.Some? && now < s.window.value.deadline }

  ghost predicate Refuses(p: Primitives, cfg: Config, s: State, args: SubmitArgs, now: real, e: ErrorCode)
  {
    match e
    case BadRequest => !WellFormed(args)
    case PairingDisabled => WellFormed(args) && s.phase != Open
    case PairingExpired => WellFormed(args) && s.phase == Open && !InTime(s, now)
    case InvalidCode => WellFormed(args) && InTime(s, now) && !RightCode(p, s, args)
    case InvalidSignature =>
      && WellFormed(args) && InTime(s, now) && RightCode(p, s, args)
      && ProofMessage(cfg, args).Ok? && !exists key, proof :: Proves(p, cfg, args, key, proof)
    case InternalError => WellFormed(args) && InTime(s, now) && RightCode(p, s, args) && ProofMessage(cfg, args).Err?
    case _ => false
  }

  ghost predicate Passes(p: Primitives, cfg: Config, s: State, args: SubmitArgs, now: real, e: Enrollment)
  {
    && InTime(s, now) && RightCode(p, s, args)
    && (exists proof :: Proves(p, cfg, args, e.pubkey, proof))
    && e.deviceId == DeviceIdFor(p, e.pubkey) && e.name == CleanName(args.name)
        && e.platform == CleanPlatform(args.platform)
  }

  lemma Unspelled(args: SubmitArgs)
    ensures WellFormed(args) <==>
              OfLength(Decode(args.pubkeyB64), Some(PUBKEY_BYTES)).Some?
              && OfLength(Decode(args.proofB64), Some(SIGNATURE_BYTES)).Some?
  {
    SpellsSome(args.pubkeyB64, PUBKEY_BYTES);
    SpellsSome(args.proofB64, SIGNATURE_BYTES);
    hide Decode, Encode, OfLength, Spells;
  }

  lemma OneProof(p: Primitives, cfg: Config, args: SubmitArgs, key: Bytes, proof: Bytes)
    requires OfLength(Decode(args.pubkeyB64), Some(PUBKEY_BYTES)) == Some(key)
    requires OfLength(Decode(args.proofB64), Some(SIGNATURE_BYTES)) == Some(proof)
    ensures Encode(key) == args.pubkeyB64
    ensures forall k, q :: Proves(p, cfg, args, k, q) ==> k == key && q == proof
    ensures Proves(p, cfg, args, key, proof) <==>
              ProofMessage(cfg, args).Ok? && p.verify(key, ProofMessage(cfg, args).value, proof)
  {
    SpellsExactly(args.pubkeyB64, key, PUBKEY_BYTES);
    SpellsExactly(args.proofB64, proof, SIGNATURE_BYTES);
    forall k, q | Proves(p, cfg, args, k, q) ensures k == key && q == proof {
      SpellsExactly(args.pubkeyB64, k, PUBKEY_BYTES);
      SpellsExactly(args.proofB64, q, SIGNATURE_BYTES);
    }
    hide Decode, OfLength, ProofMessage;
  }

  lemma EarlyChecks(p: Primitives, cfg: Config, s: State, args: SubmitArgs, now: real)
    requires s.phase == Open ==> s.window.Some?
    ensures var a := Attempted(p, cfg, s, args, now).1;
            && (!WellFormed(args) ==> a == Refused(BadRequest))
            && (WellFormed(args) && s.phase != Open ==> a == Refused(PairingDisabled))
            && (WellFormed(args) && s.phase == Open && !InTime(s, now) ==> a == Refused(PairingExpired))
            && (WellFormed(args) && InTime(s, now) && !RightCode(p, s, args) ==> a == Refused(InvalidCode))
  {
    Unspelled(args);
    hide Decode, Encode, OfLength, NormalizeCode, HashCode, ServicePair, WellFormed, Closed, EnrollmentOf;
  }

  lemma LateChecks(p: Primitives, cfg: Config, s: State, args: SubmitArgs, now: real, key: Bytes, proof: Bytes)
    requires InTime(s, now) && RightCode(p, s, args)
    requires OfLength(Decode(args.pubkeyB64), Some(PUBKEY_BYTES)) == Some(key)
    requires OfLength(Decode(args.proofB64), Some(SIGNATURE_BYTES)) == Some(proof)
    ensures Attempted(p, cfg, s, args, now).1
         == if ProofMessage(cfg, args).Err? then Refused(InternalError)
            else if Proves(p, cfg, args, key, proof) then Good(EnrollmentOf(p, key, args), proof)
            else Refused(InvalidSignature)
  {
    OneProof(p, cfg, args, key, proof);
    hide Decode, Encode, OfLength, NormalizeCode, HashCode, ServicePair, Closed, EnrollmentOf, Proves;
  }

  lemma MustSpell(p: Primitives, cfg: Config, args: SubmitArgs)
    ensures forall key, proof :: Proves(p, cfg, args, key, proof) ==> WellFormed(args)
  {
    hide Encode, ProofMessage;
  }

  ghost predicate CheckedExactly(p: Primitives, cfg: Config, s: State, args: SubmitArgs, now: real, a: Attempt)
  {
    && (forall e :: a == Refused(e) <==> Refuses(p, cfg, s, args, now, e))
    && (forall d :: Passes(p, cfg, s, args, now, d) <==> a.Good? && a.enrollment == d)
  }

  lemma RefusesApart(
      p: Primitives, cfg: Config, s: State, args: SubmitArgs, now: real, e: ErrorCode, f: ErrorCode)
    requires Refuses(p, cfg, s, args, now, e) && Refuses(p, cfg, s, args, now, f)
    requires s.phase == Open ==> s.window.Some?
    ensures e == f
  {
    hide WellFormed, Proves, ProofMessage, RightCode;
  }

  lemma PassesApart(p: Primitives, cfg: Config, s: State, args: SubmitArgs, now: real, e: ErrorCode, d: Enrollment)
    requires Refuses(p, cfg, s, args, now, e)
    ensures !Passes(p, cfg, s, args, now, d)
  {
    MustSpell(p, cfg, args);
    assert ProofMessage(cfg, args).Err? ==> forall key, proof :: !Proves(p, cfg, args, key, proof);
    hide WellFormed, Proves, ProofMessage, RightCode, DeviceIdFor, CleanName, CleanPlatform;
  }

  lemma RefusedExactly(p: Primitives, cfg: Config, s: State, args: SubmitArgs, now: real, e: ErrorCode)
    requires Refuses(p, cfg, s, args, now, e) && (s.phase == Open ==> s.window.Some?)
    ensures CheckedExactly(p, cfg, s, args, now, Refused(e))
  {
    forall f | Refuses(p, cfg, s, args, now, f) ensures e == f { RefusesApart(p, cfg, s, args, now, e, f); }
    forall d ensures !Passes(p, cfg, s, args, now, d) { PassesApart(p, cfg, s, args, now, e, d); }
    hide Refuses, Passes;
  }

  lemma GoodExactly(
      p: Primitives, cfg: Config, s: State, args: SubmitArgs, now: real, key: Bytes, proof: Bytes)
    requires WellFormed(args) && InTime(s, now) && RightCode(p, s, args) && Proves(p, cfg, args, key, proof)
    requires forall k, q :: Proves(p, cfg, args, k, q) ==> k == key && q == proof
    ensures CheckedExactly(p, cfg, s, args, now, Good(EnrollmentOf(p, key, args), proof))
  {
    assert ProofMessage(cfg, args).Ok?;
    hide WellFormed, Proves, ProofMessage, RightCode, DeviceIdFor, CleanName, CleanPlatform;
    var e := EnrollmentOf(p, key, args);
    assert Passes(p, cfg, s, args, now, e);
    forall f ensures !Refuses(p, cfg, s, args, now, f) {
      if Refuses(p, cfg, s, args, now, f) { PassesApart(p, cfg, s, args, now, f, e); }
    }
    forall d | Passes(p, cfg, s, args, now, d) ensures d == e {}
    hide Refuses, Passes;
  }

  lemma EarlyExactly(p: Primitives, cfg: Config, s: State, args: SubmitArgs, now: real)
    requires s.phase == Open ==> s.window.Some?
    requires !(WellFormed(args) && InTime(s, now) && RightCode(p, s, args))
    ensures CheckedExactly(p, cfg, s, args, now, Attempted(p, cfg, s, args, now).1)
  {
    EarlyChecks(p, cfg, s, args, now);
    hide Attempted, ProofMessage, WellFormed, Proves, RightCode, CheckedExactly, InTime;
    var e := if !WellFormed(args) then BadRequest else if s.phase != Open then PairingDisabled
             else if !InTime(s, now) then PairingExpired else InvalidCode;
    assert Attempted(p, cfg, s, args, now).1 == Refused(e);
    RefusedExactly(p, cfg, s, args, now, e);
  }

  lemma LateExactly(p: Primitives, cfg: Config, s: State, args: SubmitArgs, now: real)
    requires WellFormed(args) && InTime(s, now) && RightCode(p, s, args)
    ensures CheckedExactly(p, cfg, s, args, now, Attempted(p, cfg, s, args, now).1)
  {
    Unspelled(args);
    hide Attempted, ProofMessage, WellFormed, Proves, RightCode, Decode, Encode, OfLength, CheckedExactly;
    var key := OfLength(Decode(args.pubkeyB64), Some(PUBKEY_BYTES)).value;
    var proof := OfLength(Decode(args.proofB64), Some(SIGNATURE_BYTES)).value;
    LateChecks(p, cfg, s, args, now, key, proof);
    OneProof(p, cfg, args, key, proof);
    if ProofMessage(cfg, args).Err? {
      RefusedExactly(p, cfg, s, args, now, InternalError);
    } else if Proves(p, cfg, args, key, proof) {
      GoodExactly(p, cfg, s, args, now, key, proof);
    } else {
      assert forall k, q :: !Proves(p, cfg, args, k, q);
      RefusedExactly(p, cfg, s, args, now, InvalidSignature);
    }
  }

  /** Each refusal before the database, and the pass, exactly when they are due. */
  lemma ChecksExactly(p: Primitives, cfg: Config, s: State, args: SubmitArgs, now: real)
    requires s.phase == Open ==> s.window.Some?
    ensures CheckedExactly(p, cfg, s, args, now, Attempted(p, cfg, s, args, now).1)
  {
    hide CheckedExactly, Attempted, WellFormed, RightCode, InTime;
    if WellFormed(args) && InTime(s, now) && RightCode(p, s, args) {
      LateExactly(p, cfg, s, args, now);
    } else {
      EarlyExactly(p, cfg, s, args, now);
    }
  }

  // ---- Answers ----

  /** The device was stored in this step, and nothing failed. */
  ghost predicate StoredCleanly(before: seq<Entry>, after: seq<Entry>, sid: nat, e: Enrollment)
  {
    && before <= after
    && (exists k, window :: |before| <= k < |after| && after[k] == Stored(sid, window, e))
    && (forall k :: |before| <= k < |after| ==> !after[k].AuditFailed? && !after[k].Failed?)
  }

  lemma FinishedAnswer(s: State, sid: nat, window: nat, e: Enrollment, outcome: StoreOutcome)
    ensures var (next, r) := Finished(s, sid, window, e, outcome);
            && (r == if outcome.Saved? then Ok(e) else Err(InternalError))
            && (forall d :: r == Ok(d) <==> StoredCleanly(s.log, next.log, sid, d))
            && (r.Ok? ==> next.phase == Idle
                          && next.events == s.events + [PairCompleted(e.deviceId), PairClosed("paired")])
  {
    var next := Finished(s, sid, window, e, outcome).0;
    if !outcome.UpsertRaises? { assert next.log[|s.log|] == Stored(sid, window, e); }
    if outcome.UpsertRaises? { assert next.log[|s.log|] == Failed(sid); }
    if outcome.AuditRaises? { assert next.log[|s.log| + 1] == AuditFailed(window); }
  }

  lemma RefusedStoresNothing(p: Primitives, cfg: Config, s: State, args: SubmitArgs, now: real, sid: nat)
    requires Attempted(p, cfg, s, args, now).1.Refused?
    ensures forall d :: !StoredCleanly(s.log, Attempted(p, cfg, s, args, now).0.log, sid, d)
  {
    RefusalCases(p, cfg, s, args, now);
    hide Attempted, HashCode, NormalizeCode;
  }

  /** A match before what follows makes no difference. */
  lemma MatchApart(before: seq<Entry>, x: Entry, after: seq<Entry>, sid: nat)
    requires x.Matched? && before + [x] <= after
    ensures forall d :: StoredCleanly(before, after, sid, d) <==> StoredCleanly(before + [x], after, sid, d)
  {
    assert after[|before|] == x;
  }

  /**
   What a submission is told: a refusal exactly when it is due; nothing yet when it passes and approval is
   asked for; else the device when it was stored cleanly and an internal error when not.
   */
  lemma SubmitAnswers(
      p: Primitives, cfg: Config, s: State, sid: nat, args: SubmitArgs, now: real, outcome: StoreOutcome)
    requires s.phase == Open ==> s.window.Some?
    ensures var (next, r) := Submitted(p, cfg, s, sid, args, now, outcome);
            && (forall e :: e != InternalError ==> (r == Some(Err(e)) <==> Refuses(p, cfg, s, args, now, e)))
            && (r.None? <==> cfg.requireApproval && exists d :: Passes(p, cfg, s, args, now, d))
            && (forall d :: r == Some(Ok(d)) ==> Passes(p, cfg, s, args, now, d))
            && (forall d :: r == Some(Ok(d)) <==> StoredCleanly(s.log, next.log, sid, d))
            && (r == Some(Err(InternalError)) <==>
                  || Refuses(p, cfg, s, args, now, InternalError)
                  || ((exists d :: Passes(p, cfg, s, args, now, d)) && !cfg.requireApproval && !outcome.Saved?))
  {
    hide Attempted, Finished, StoredCleanly, Refuses, Passes, NormalizeCode, ParkedState;
    ChecksExactly(p, cfg, s, args, now);
    var (next, a) := Attempted(p, cfg, s, args, now);
    if a.Refused? {
      RefusedStoresNothing(p, cfg, s, args, now, sid);
    } else {
      assert Passes(p, cfg, s, args, now, a.enrollment);
      var u := MatchedState(s, sid, NormalizeCode(args.code), a.proof, a.enrollment, now);
      var x := Matched(sid, s.window.value.id, NormalizeCode(args.code), a.proof, a.enrollment, now);
      if cfg.requireApproval {
        NothingStored(u.log, sid);
        MatchApart(s.log, x, u.log, sid);
        assert ParkedState(u, sid, a.enrollment, now).log == u.log by { ParkedLog(u, sid, a.enrollment, now); }
      } else {
        FinishedAnswer(u, sid, s.window.value.id, a.enrollment, outcome);
        FinishStoresOnce(u, sid, s.window.value.id, a.enrollment, outcome);
        MatchApart(s.log, x, Finished(u, sid, s.window.value.id, a.enrollment, outcome).0.log, sid);
      }
    }
  }

  lemma NothingStored(log: seq<Entry>, sid: nat)
    ensures forall d :: !StoredCleanly(log, log, sid, d)
  {
  }

  lemma ParkedLog(u: State, sid: nat, e: Enrollment, now: real)
    requires u.window.Some?
    ensures ParkedState(u, sid, e, now).log == u.log
  {
  }

  /**
   What a submission that goes on is told: that it timed out, or was denied, exactly when that is so; else
   the device when it was stored cleanly and an internal error when not.
   */
  lemma ResumeAnswers(s: State, sid: nat, outcome: StoreOutcome)
    requires CanResume(s, sid)
    ensures var (next, r) := Resumed(s, sid, outcome);
            var me := s.parked[sid];
            && (r == Err(PairingTimeout) <==> me.timedOut)
            && (r == Err(PairingDenied) <==> !me.timedOut && s.decisions[sid] == Decided(false))
            && (r == Err(InternalError) <==> !me.timedOut && s.decisions[sid] == Decided(true) && !outcome.Saved?)
            && (r == Ok(me.enrollment) <==> !me.timedOut && s.decisions[sid] == Decided(true) && outcome.Saved?)
            && (forall d :: r == Ok(d) <==> StoredCleanly(s.log, next.log, sid, d))
  {
    var me := s.parked[sid];
    var rest := s.(parked := s.parked - {sid});
    FinishedAnswer(rest, sid, me.window, me.enrollment, outcome);
    ClosedStoresNothing(rest, "approval_timeout", sid);
    ClosedStoresNothing(rest, "denied", sid);
    hide Finished, Closed, StoredCleanly;
  }

  lemma ClosedStoresNothing(s: State, reason: string, sid: nat)
    ensures forall d :: !StoredCleanly(s.log, Closed(s, reason).log, sid, d)
  {
  }

  /** The length that is asked for, in seconds; nothing or zero asks for the configured one. */
  predicate AsksFor(cfg: Config, windowS: Option<int>, seconds: int)
  {
    match windowS
    case None => seconds == cfg.windowS
    case Some(n) => if n == 0 then seconds == cfg.windowS else seconds == n
  }

  /** A window is opened exactly in an idle service and for 15 to 600 seconds; then it lasts that long. */
  lemma BeginAnswers(p: Primitives, cfg: Config, s: State, windowS: Option<int>, code: string, now: real, seconds: int)
    requires AsksFor(cfg, windowS, seconds)
    ensures var (next, r) := Begun(p, cfg, s, windowS, code, now);
            && (r == Err(PairingDisabled) <==> s.phase != Idle)
            && (r == Err(BadRequest) <==> s.phase == Idle && (seconds < 15 || seconds > 600))
            && (r == Ok(()) <==> s.phase == Idle && 15 <= seconds <= 600)
            && (r.Err? ==> next == s)
            && (r.Ok? ==>
                  && next.phase == Open && next.window.Some? && next.window.value.deadline == now + seconds as real
                  && next.window.value.attemptsLeft == cfg.maxAttempts
                  && next.window.value.codeHash == HashCode(p, code)
                  && next.events == s.events + [PairOpened])
  {
    hide HashCode;
  }

  /** The operator's answer is accepted exactly when a submission is pending undecided, and it is then its decision. */
  lemma ResolveAnswers(p: Primitives, cfg: Config, s: State, approved: bool)
    requires Configured(cfg) && Reachable(p, cfg, s)
    ensures var (next, accepted) := Resolved(s, approved);
            && (accepted <==> exists sid :: sid in s.parked && sid in s.decisions && s.decisions[sid].Undecided?)
            && (!accepted ==> next == s)
            && (accepted ==> s.pending.Some? && next.decisions == s.decisions[s.pending.value := Decided(approved)])
  {
    ReachableInv(p, cfg, s);
    hide Linked, History, Reported, WrongCodes;
  }

  // ---- What is announced ----

  /** The reason that goes with an answer when it closes the window. */
  predicate Reason(r: Result<Enrollment, ErrorCode>, reason: string)
  {
    match r
    case Ok(_) => reason == "paired"
    case Err(PairingExpired) => reason == "expired"
    case Err(InvalidCode) => reason == "too_many_attempts"
    case Err(InvalidSignature) => reason == "bad_proof"
    case Err(PairingTimeout) => reason == "approval_timeout"
    case Err(PairingDenied) => reason == "denied"
    case Err(_) => false
  }

  ghost predicate ClosedWith(s: State, next: State, r: Result<Enrollment, ErrorCode>)
  {
    next.phase == Idle && |next.events| > |s.events|
    && exists reason :: next.events[|next.events| - 1] == PairClosed(reason) && Reason(r, reason)
  }

  lemma CloseAnnounced(s: State, before: State, reason: string, r: Result<Enrollment, ErrorCode>)
    requires before.events <= s.events && Reason(r, reason)
    ensures ClosedWith(before, Closed(s, reason), r)
  {
  }

  lemma FinishAnnounced(s: State, sid: nat, window: nat, e: Enrollment, outcome: StoreOutcome)
    ensures var (next, r) := Finished(s, sid, window, e, outcome);
            if outcome.Saved? then ClosedWith(s, next, r) else next.phase == s.phase && next.events == s.events
  {
    FinishedAnswer(s, sid, window, e, outcome);
    var next := Finished(s, sid, window, e, outcome).0;
    if outcome.Saved? { assert next.events[|next.events| - 1] == PairClosed("paired"); }
  }

  lemma RefusalLeaves(p: Primitives, cfg: Config, s: State, args: SubmitArgs, now: real)
    requires s.phase == Open && s.window.Some? && Attempted(p, cfg, s, args, now).1.Refused?
    ensures var (next, a) := Attempted(p, cfg, s, args, now);
            next == match a.error
                    case PairingExpired => Closed(s, "expired")
                    case InvalidSignature => Closed(s, "bad_proof")
                    case InvalidCode =>
                      if s.window.value.attemptsLeft > 1 then WrongCounted(s)
                      else Closed(WrongCounted(s), "too_many_attempts")
                    case _ => s
  {
    hide Closed, HashCode, NormalizeCode, Decode, OfLength, ServicePair, EnrollmentOf;
  }

  lemma RefusalAnnounced(p: Primitives, cfg: Config, s: State, args: SubmitArgs, now: real)
    requires s.phase == Open && s.window.Some? && Attempted(p, cfg, s, args, now).1.Refused?
    ensures var (next, a) := Attempted(p, cfg, s, args, now);
            if a.error == PairingExpired || a.error == InvalidSignature
               || (a.error == InvalidCode && s.window.value.attemptsLeft <= 1)
            then ClosedWith(s, next, Err(a.error))
            else next.phase == s.phase && next.events == s.events
  {
    RefusalLeaves(p, cfg, s, args, now);
    CloseAnnounced(s, s, "expired", Err(PairingExpired));
    CloseAnnounced(s, s, "bad_proof", Err(InvalidSignature));
    CloseAnnounced(WrongCounted(s), s, "too_many_attempts", Err(InvalidCode));
    hide Attempted, Closed, ClosedWith;
  }

  /**
   A submission to an open window closes it, for the reason it is told, exactly when it comes too late, spends
   the last attempt, has a bad proof, or is stored; one that waits is announced, and nothing else is.
   */
  lemma SubmitAnnounces(
      p: Primitives, cfg: Config, s: State, sid: nat, args: SubmitArgs, now: real, outcome: StoreOutcome)
    requires s.phase == Open && s.window.Some?
    ensures var (next, r) := Submitted(p, cfg, s, sid, args, now, outcome);
            if r.None? then next.phase == AwaitingApproval && next.events == s.events + [PairRequest(sid)]
            else if r.value.Ok? || r.value.error == PairingExpired || r.value.error == InvalidSignature
                    || (r.value.error == InvalidCode && s.window.value.attemptsLeft <= 1)
            then ClosedWith(s, next, r.value)
            else next.phase == Open && next.events == s.events
  {
    hide Attempted, Finished, ClosedWith, NormalizeCode;
    var a := Attempted(p, cfg, s, args, now).1;
    if a.Refused? {
      RefusalAnnounced(p, cfg, s, args, now);
    } else {
      var u := MatchedState(s, sid, NormalizeCode(args.code), a.proof, a.enrollment, now);
      FinishedAnswer(u, sid, s.window.value.id, a.enrollment, outcome);
      FinishAnnounced(u, sid, s.window.value.id, a.enrollment, outcome);
      SameEvents(s, u, Finished(u, sid, s.window.value.id, a.enrollment, outcome).0,
                 Finished(u, sid, s.window.value.id, a.enrollment, outcome).1);
    }
  }

  lemma SameEvents(s: State, u: State, next: State, r: Result<Enrollment, ErrorCode>)
    requires s.events == u.events
    ensures ClosedWith(u, next, r) ==> ClosedWith(s, next, r)
  {
  }

  /** A submission that goes on closes the window, for the reason it is told, unless storing it fails. */
  lemma ResumeAnnounces(s: State, sid: nat, outcome: StoreOutcome)
    requires CanResume(s, sid)
    ensures var (next, r) := Resumed(s, sid, outcome);
            if r == Err(InternalError) then next.phase == s.phase && next.events == s.events else ClosedWith(s, next, r)
  {
    ResumeAnswers(s, sid, outcome);
    hide StoredCleanly, Finished, ClosedWith, Closed;
    var me := s.parked[sid];
    var rest := s.(parked := s.parked - {sid});
    CloseAnnounced(rest, s, "approval_timeout", Err(PairingTimeout));
    CloseAnnounced(rest, s, "denied", Err(PairingDenied));
    FinishAnnounced(rest, sid, me.window, me.enrollment, outcome);
    SameEvents(s, rest, Finished(rest, sid, me.window, me.enrollment, outcome).0,
               Finished(rest, sid, me.window, me.enrollment, outcome).1);
  }

  /** The operator and the clock close with their own reasons. */
  lemma OthersAnnounce(s: State, reason: string, now: real)
    ensures Closed(s, reason).events == s.events + [PairClosed(reason)]
    ensures ShutDown(s).events == s.events + if s.phase == Idle then [] else [PairClosed("shutdown")]
    ensures ExpiryDue(s, now) ==>
              Expired(s).events == s.events + if s.phase == Open then [PairClosed("expired")] else []
  {
  }

  // ---- Codes ----

  lemma BytesApart(a: string, b: string)
    requires Ascii(a) && Ascii(b) && ToBytes(a) == ToBytes(b)
    ensures a == b
  {
    assert |a| == |ToBytes(a)| == |ToBytes(b)| == |b|;
    forall i | 0 <= i < |a| ensures a[i] == b[i] {
      assert ToBytes(a)[i] == ToBytes(b)[i];
    }
  }

  /** Where the digest keeps the two texts apart, only the window's own code is right. */
  lemma RightCodeOnly(p: Primitives, a: string, b: string)
    requires Ascii(a) && Ascii(b)
    requires var x, y := ToBytes("wol-unlock/v1/code\n" + a + "\n"), ToBytes("wol-unlock/v1/code\n" + b + "\n");
             p.sha256(x) == p.sha256(y) ==> x == y
    ensures HashCode(p, a) == HashCode(p, b) <==> a == b
  {
    var head := "wol-unlock/v1/code\n";
    var x, y := head + a + "\n", head + b + "\n";
    assert Ascii(head);
    if HashCode(p, a) == HashCode(p, b) {
      BytesApart(x, y);
      assert x[|head|..|x| - 1] == a && y[|head|..|y| - 1] == b;
    }
  }
}
