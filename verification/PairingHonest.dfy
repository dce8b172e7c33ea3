/**
 An honest phone's submission is matched, and stored once it is approved; what store failures do after a
 match, with approval and without.
 */
module PairingHonest {
  import opened Prelude
  import opened Base64Url
  import opened Canonical
  import opened PairingCode
  import opened Crypto
  import opened Unicode
  import opened Exchange
  import opened Pairing
  import opened PairingTheorems
  import opened PairingDrain

  /** What the phone signs and sends for a typed or scanned code. None where framing throws. */
  function PhoneSubmission(p: Primitives, seed: Bytes, typed: string, serverFp: string, name: UText): Option<SubmitArgs>
  {
    var code := NormalizeCode(typed);
    var pubkey := Encode(p.publicKey(seed));
    match PhonePair(Pair(code, pubkey, serverFp))
    case Err(_) => None
    case Ok(message) => Some(SubmitArgs(code, pubkey, Encode(p.sign(seed, message)), name, "ios"))
  }

  predicate OwnServer(p: Primitives, cfg: Config, serverSeed: Bytes)
  {
    cfg.serverFp == Fingerprint(p, p.publicKey(serverSeed))
  }

  function HonestEnrollment(p: Primitives, seed: Bytes, name: UText): Enrollment
  {
    Enrollment(DeviceIdFor(p, p.publicKey(seed)), p.publicKey(seed), CleanName(name), CleanPlatform("ios"))
  }

  lemma CodeVisible(code: string)
    requires OverAlphabet(code)
    ensures Visible(code)
  {
  }

  lemma PairFramed(code: string, pubkey: Bytes, digest: Bytes)
    requires OverAlphabet(code)
    ensures var m := Pair(code, Encode(pubkey), Encode(digest)); PhonePair(m).Ok? && ServicePair(m) == PhonePair(m)
  {
    var m := Pair(code, Encode(pubkey), Encode(digest));
    CodeVisible(code);
    UpperVisible(code);
    SymbolsVisible(Encode(pubkey));
    SymbolsVisible(Encode(digest));
    VisibleLines(PairLines(m));
  }

  /** The phone can always frame its proof. */
  lemma PhoneSubmits(p: Primitives, cfg: Config, serverSeed: Bytes, seed: Bytes, typed: string, name: UText)
    requires OwnServer(p, cfg, serverSeed)
    ensures PhoneSubmission(p, seed, typed, cfg.serverFp, name).Some?
  {
    PairFramed(NormalizeCode(typed), p.publicKey(seed), p.sha256(p.publicKey(serverSeed)));
    hide NormalizeCode, PhonePair, Encode;
  }

  /** The submission of an honest phone, with any spelling of the window's code, is a match. */
  lemma HonestSubmissionMatches(
      p: Primitives, cfg: Config, serverSeed: Bytes, seed: Bytes, typed: string, name: UText, s: State, now: real)
    requires Sound(p) && OwnServer(p, cfg, serverSeed)
    requires s.phase == Open && s.window.Some? && now < s.window.value.deadline
    requires HashCode(p, NormalizeCode(typed)) == s.window.value.codeHash
    ensures var args := PhoneSubmission(p, seed, typed, cfg.serverFp, name);
            args.Some? && exists proof ::
              Attempted(p, cfg, s, args.value, now) == (s, Good(HonestEnrollment(p, seed, name), proof))
  {
    var code := NormalizeCode(typed);
    var pubkey := p.publicKey(seed);
    PhoneSubmits(p, cfg, serverSeed, seed, typed, name);
    PairFramed(code, pubkey, p.sha256(p.publicKey(serverSeed)));
    var message := PhonePair(Pair(code, Encode(pubkey), cfg.serverFp)).value;
    NormalizeIdempotent(typed);
    EncodedDecodes(pubkey, PUBKEY_BYTES);
    EncodedDecodes(p.sign(seed, message), SIGNATURE_BYTES);
    assert p.verify(pubkey, message, p.sign(seed, message));
    hide NormalizeCode, PhonePair, ServicePair, Encode, Decode, HashCode, Closed, DeviceIdFor, Fingerprint;
    var args := PhoneSubmission(p, seed, typed, cfg.serverFp, name).value;
    assert args == SubmitArgs(code, Encode(pubkey), Encode(p.sign(seed, message)), name, "ios");
    assert Attempted(p, cfg, s, args, now) == (s, Good(HonestEnrollment(p, seed, name), p.sign(seed, message)));
  }

  // ---- Two enrollments in one window ----

  lemma LastOf(p: Primitives, cfg: Config, s: State, t: Timed, last: State)
    requires Enabled(cfg, s, t) && last == Step(p, cfg, s, t)
    ensures Runs(p, cfg, s, [t], last)
  {
  }

  lemma {:induction false} RunAppend(p: Primitives, cfg: Config, s: State, run: seq<Timed>, mid: State, t: Timed)
    requires Runs(p, cfg, s, run, mid) && Enabled(cfg, mid, t)
    ensures Runs(p, cfg, s, run + [t], Step(p, cfg, mid, t))
    decreases |run|
  {
    hide Step, Enabled;
    if run == [] {
      LastOf(p, cfg, s, t, Step(p, cfg, mid, t));
    } else {
      RunAppend(p, cfg, Step(p, cfg, s, run[0]), run[1..], mid, t);
      assert (run + [t])[0] == run[0] && (run + [t])[1..] == run[1..] + [t];
    }
  }

  lemma ReachStep(p: Primitives, cfg: Config, s: State, t: Timed)
    requires Reachable(p, cfg, s) && Enabled(cfg, s, t)
    ensures Reachable(p, cfg, Step(p, cfg, s, t))
  {
    hide Step, Enabled;
    var run :| Runs(p, cfg, Initial, run, s);
    RunAppend(p, cfg, Initial, run, s, t);
  }

  predicate StoredUnaudited(s: State, sid: nat, x: Entry, next: State)
  {
    && next.phase == s.phase && next.window == s.window && next.decisions == s.decisions
    && next.parked == s.parked && |next.log| == |s.log| + 4
    && next.log[..|s.log|] == s.log && next.log[|s.log| + 1] == x
    && next.log[|s.log|].Matched? && next.log[|s.log|].sid == sid
    && !next.log[|s.log| + 2].Matched? && !next.log[|s.log| + 3].Matched?
  }

  lemma StoredAfterMatch(
      p: Primitives, cfg: Config, s: State, sid: nat, args: SubmitArgs, now: real, e: Enrollment, proof: Bytes)
    requires s.window.Some? && !cfg.requireApproval && Attempted(p, cfg, s, args, now) == (s, Good(e, proof))
    ensures StoredUnaudited(s, sid, Stored(sid, s.window.value.id, e),
              Submitted(p, cfg, s, sid, args, now, AuditRaises).0)
  {
    hide Attempted, NormalizeCode, Closed;
  }

  /** Approval off and the audit row lost: the device is stored and the window stays as it was. */
  lemma LostAudit(
      p: Primitives, cfg: Config, serverSeed: Bytes, seed: Bytes, typed: string, s: State, sid: nat, now: real)
      returns (t: Timed, x: Entry)
    requires Sound(p) && OwnServer(p, cfg, serverSeed) && !cfg.requireApproval
    requires s.phase == Open && s.window.Some? && now < s.window.value.deadline
    requires HashCode(p, NormalizeCode(typed)) == s.window.value.codeHash
    requires Unused(s, sid)
    ensures Enabled(cfg, s, t) && x.Stored? && x.window == s.window.value.id
    ensures StoredUnaudited(s, sid, x, Step(p, cfg, s, t))
  {
    HonestSubmissionMatches(p, cfg, serverSeed, seed, typed, [], s, now);
    hide Attempted, PhoneSubmission, HonestEnrollment, NormalizeCode, HashCode, Unused, Sound, Submitted,
         StoredUnaudited;
    var args := PhoneSubmission(p, seed, typed, cfg.serverFp, []).value;
    var e := HonestEnrollment(p, seed, []);
    var proof :| Attempted(p, cfg, s, args, now) == (s, Good(e, proof));
    StoredAfterMatch(p, cfg, s, sid, args, now, e, proof);
    t := Timed(Submit(sid, args, AuditRaises), now);
    x := Stored(sid, s.window.value.id, e);
  }

  lemma FirstWindow(p: Primitives, cfg: Config, code: string) returns (t: Timed)
    requires Configured(cfg) && OverAlphabet(code)
    ensures Enabled(cfg, Initial, t)
    ensures var a := Step(p, cfg, Initial, t);
            && a.phase == Open && a.window.Some? && 0.0 < a.window.value.deadline
            && HashCode(p, NormalizeCode(code)) == a.window.value.codeHash
            && |a.log| == 1 && a.log[0].WindowOpened? && a.decisions == map[] && a.parked == map[]
            && a.windows == 1 && a.window.value.id == 0
  {
    FixedPoints(code);
    t := Timed(Begin(None, code), 0.0);
    hide NormalizeCode, HashCode;
  }

  lemma NoneMatched(s: State, sid: nat)
    requires s.decisions == map[] && s.parked == map[]
    requires |s.log| == 1 || |s.log| == 5
    requires s.log[0].WindowOpened?
    requires |s.log| == 5 ==> s.log[1].Matched? && s.log[1].sid != sid && s.log[2].Stored?
    requires |s.log| == 5 ==> !s.log[3].Matched? && !s.log[4].Matched?
    ensures Unused(s, sid)
  {
  }

  lemma TwiceEnrolled(p: Primitives, cfg: Config, serverSeed: Bytes, seed: Bytes) returns (s: State)
    requires Sound(p) && Configured(cfg) && OwnServer(p, cfg, serverSeed) && !cfg.requireApproval
    ensures Reachable(p, cfg, s) && !OnePerWindow(s.log)
  {
    hide Step, Enabled, NormalizeCode, HashCode, Reachable, Unused, OwnServer, Sound;
    var code := "K7M2QX4B";
    assert Reachable(p, cfg, Initial) by { StartReachable(p, cfg); }
    var first := FirstWindow(p, cfg, code);
    ReachStep(p, cfg, Initial, first);
    var a := Step(p, cfg, Initial, first);
    NoneMatched(a, 0);
    var t, x := LostAudit(p, cfg, serverSeed, seed, code, a, 0, 0.0);
    ReachStep(p, cfg, a, t);
    var b := Step(p, cfg, a, t);
    assert b.log[0] == b.log[..1][0] == a.log[0];
    NoneMatched(b, 1);
    var u, y := LostAudit(p, cfg, serverSeed, seed, code, b, 1, 0.0);
    ReachStep(p, cfg, b, u);
    s := Step(p, cfg, b, u);
    assert s.log[2] == s.log[..5][2] == x && s.log[6] == y;
  }

  lemma StartReachable(p: Primitives, cfg: Config)
    ensures Reachable(p, cfg, Initial)
  {
    assert Runs(p, cfg, Initial, [], Initial);
  }

  /** In every run each window enrolls at most one device exactly when approval is required. */
  lemma OnePerWindowExactly(p: Primitives, cfg: Config, serverSeed: Bytes)
    requires Sound(p) && Configured(cfg) && OwnServer(p, cfg, serverSeed)
    ensures (forall s :: Reachable(p, cfg, s) ==> OnePerWindow(s.log)) <==> cfg.requireApproval
  {
    hide Reachable, OnePerWindow;
    if cfg.requireApproval {
      forall s | Reachable(p, cfg, s) ensures OnePerWindow(s.log) { OneEnrollmentPerWindow(p, cfg, s); }
    } else {
      var s := TwiceEnrolled(p, cfg, serverSeed, serverSeed);
    }
  }

  // ---- Approval, and what may follow it ----

  /** A submission that was matched and approved, and goes on next. */
  predicate ApprovedFor(s: State, sid: nat, window: nat, e: Enrollment, others: map<nat, Parked>)
  {
    && s.phase == AwaitingApproval && s.pending == Some(sid)
    && sid in s.decisions && s.decisions[sid] == Decided(true)
    && sid in s.parked && !s.parked[sid].timedOut
    && s.parked[sid].window == window && s.parked[sid].enrollment == e
    && s.parked - {sid} == others - {sid} && Requested(s.log, sid) == Some(e)
  }

  lemma {:induction false} RequestedStays(log: seq<Entry>, more: seq<Entry>, sid: nat)
    requires forall i :: 0 <= i < |more| ==> !more[i].Matched?
    ensures Requested(log + more, sid) == Requested(log, sid)
  {
    if more == [] {
      assert log + more == log;
    } else {
      RequestedStays(log, more[..|more| - 1], sid);
      assert (log + more)[..|log + more| - 1] == log + more[..|more| - 1];
    }
  }

  /** The log goes on without anything asked of the database. */
  predicate Unstored(before: seq<Entry>, after: seq<Entry>)
  {
    before <= after
    && forall k :: |before| <= k < |after| ==> !after[k].Stored? && !after[k].AuditFailed? && !after[k].Failed?
  }

  /** The database failed for nothing but names that it cannot hold. */
  ghost predicate StoreWorked(log: seq<Entry>)
  {
    && (forall w :: AuditFailed(w) !in log)
    && (forall sid :: Failed(sid) in log ==>
          Requested(log, sid).Some? && !Encodable(Requested(log, sid).value.name))
  }

  lemma QuietAfterMatch(
      p: Primitives, cfg: Config, s: State, sid: nat, args: SubmitArgs, now: real, e: Enrollment, proof: Bytes,
      outcome: StoreOutcome)
    requires s.window.Some? && cfg.requireApproval && Attempted(p, cfg, s, args, now) == (s, Good(e, proof))
    ensures var mid := Submitted(p, cfg, s, sid, args, now, outcome).0;
            && Unstored(s.log, mid.log) && Unstored(mid.log, Resolved(mid, true).0.log)
            && Resolved(mid, true).0.windows == s.windows
  {
    hide Attempted, NormalizeCode;
  }

  lemma ParkedAfterMatch(
      p: Primitives, cfg: Config, s: State, sid: nat, args: SubmitArgs, now: real, e: Enrollment, proof: Bytes,
      outcome: StoreOutcome)
    requires s.window.Some? && cfg.requireApproval && Attempted(p, cfg, s, args, now) == (s, Good(e, proof))
    ensures var mid := Submitted(p, cfg, s, sid, args, now, outcome).0;
            ApprovedFor(Resolved(mid, true).0, sid, s.window.value.id, e, s.parked)
  {
    hide Attempted, NormalizeCode;
    var mid := Submitted(p, cfg, s, sid, args, now, outcome).0;
    assert mid.log == s.log + [Matched(sid, s.window.value.id, NormalizeCode(args.code), proof, e, now)];
    assert mid.log[..|s.log|] == s.log;
    RequestedStays(mid.log, [Answered(sid, true), Settled(sid)], sid);
  }

  lemma ApprovedSteps(
      p: Primitives, cfg: Config, s: State, sid: nat, args: SubmitArgs, now: real, e: Enrollment, proof: Bytes)
    requires s.window.Some? && cfg.requireApproval && Unused(s, sid)
              && Attempted(p, cfg, s, args, now) == (s, Good(e, proof))
    ensures HonestSteps(p, cfg, s, sid, e, Timed(Submit(sid, args, UpsertRaises), now), Timed(Resolve(true), now))
  {
    hide Attempted, NormalizeCode, Unused, Submitted, ApprovedFor, Resolved, CleanName, Unstored, Encodable;
    ParkedAfterMatch(p, cfg, s, sid, args, now, e, proof, UpsertRaises);
    QuietAfterMatch(p, cfg, s, sid, args, now, e, proof, UpsertRaises);
  }

  /** Two steps that park a submission and approve it. */
  ghost predicate HonestSteps(p: Primitives, cfg: Config, s: State, sid: nat, e: Enrollment, submit: Timed, yes: Timed)
    requires s.window.Some?
  {
    && Enabled(cfg, s, submit)
    && var mid := Step(p, cfg, s, submit);
    && Enabled(cfg, mid, yes)
    && Unstored(s.log, mid.log) && Unstored(mid.log, Step(p, cfg, mid, yes).log)
    && ApprovedFor(Step(p, cfg, mid, yes), sid, s.window.value.id, e, s.parked)
    && Step(p, cfg, mid, yes).windows == s.windows
  }

  /** An honest submission is parked, and the operator's yes reaches it. */
  lemma HonestApproved(
      p: Primitives, cfg: Config, serverSeed: Bytes, seed: Bytes, typed: string, name: UText, s: State, sid: nat,
      now: real)
      returns (submit: Timed, yes: Timed)
    requires Sound(p) && OwnServer(p, cfg, serverSeed) && cfg.requireApproval
    requires s.phase == Open && s.window.Some? && now < s.window.value.deadline
    requires HashCode(p, NormalizeCode(typed)) == s.window.value.codeHash && Unused(s, sid)
    ensures HonestSteps(p, cfg, s, sid, HonestEnrollment(p, seed, name), submit, yes)
  {
    HonestSubmissionMatches(p, cfg, serverSeed, seed, typed, name, s, now);
    hide Attempted, PhoneSubmission, HonestEnrollment, NormalizeCode, HashCode, Unused, Sound, CleanName, HonestSteps,
         OwnServer;
    var args := PhoneSubmission(p, seed, typed, cfg.serverFp, name).value;
    var e := HonestEnrollment(p, seed, name);
    var proof :| Attempted(p, cfg, s, args, now) == (s, Good(e, proof));
    ApprovedSteps(p, cfg, s, sid, args, now, e, proof);
    submit := Timed(Submit(sid, args, UpsertRaises), now);
    yes := Timed(Resolve(true), now);
  }

  /** The approved submission goes on with a store that works: stored, announced, closed. */
  lemma SavedAfterApproval(
      p: Primitives, cfg: Config, s: State, sid: nat, window: nat, e: Enrollment, others: map<nat, Parked>, now: real)
    requires ApprovedFor(s, sid, window, e, others) && Encodable(e.name)
    ensures var t := Timed(Resume(sid, Saved), now);
            && Enabled(cfg, s, t) && Step(p, cfg, s, t).phase == Idle
            && Step(p, cfg, s, t).log == s.log + [Stored(sid, window, e)]
            && Step(p, cfg, s, t).events == s.events + [PairCompleted(e.deviceId), PairClosed("paired")]
            && AnswerOf(p, cfg, s, t) == Some(Ok(e))
  {
  }

  /** Without approval, the submission itself is stored, announced and closes the window. */
  lemma SavedAtOnce(
      p: Primitives, cfg: Config, serverSeed: Bytes, seed: Bytes, typed: string, name: UText, s: State, sid: nat,
      now: real)
      returns (submit: Timed)
    requires Sound(p) && OwnServer(p, cfg, serverSeed) && !cfg.requireApproval && Encodable(CleanName(name))
    requires s.phase == Open && s.window.Some? && s.pending.None? && now < s.window.value.deadline
    requires HashCode(p, NormalizeCode(typed)) == s.window.value.codeHash && Unused(s, sid)
    ensures Enabled(cfg, s, submit)
    ensures var last := Step(p, cfg, s, submit);
            && last.phase == Idle && s.log <= last.log && |last.log| == |s.log| + 2 && last.log[|s.log|].Matched?
            && last.log[|s.log| + 1] == Stored(sid, s.window.value.id, HonestEnrollment(p, seed, name))
            && last.events == s.events + [PairCompleted(DeviceIdFor(p, p.publicKey(seed))), PairClosed("paired")]
    ensures AnswerOf(p, cfg, s, submit) == Some(Ok(HonestEnrollment(p, seed, name)))
  {
    HonestSubmissionMatches(p, cfg, serverSeed, seed, typed, name, s, now);
    hide Attempted, NormalizeCode, HashCode, Unused, Sound, CleanName, DeviceIdFor;
    var args := PhoneSubmission(p, seed, typed, cfg.serverFp, name).value;
    var e := HonestEnrollment(p, seed, name);
    var proof :| Attempted(p, cfg, s, args, now) == (s, Good(e, proof));
    submit := Timed(Submit(sid, args, Saved), now);
  }

  lemma FailureStrands(
      p: Primitives, cfg: Config, s: State, sid: nat, window: nat, e: Enrollment, outcome: StoreOutcome, now: real)
    requires ApprovedFor(s, sid, window, e, map[]) && outcome != Saved && Possible(e.name, outcome)
    ensures var t := Timed(Resume(sid, outcome), now);
            && Enabled(cfg, s, t) && Stranded(Step(p, cfg, s, t))
            && Step(p, cfg, s, t).pending == Some(sid) && Requested(Step(p, cfg, s, t).log, sid) == Some(e)
            && (outcome.UpsertRaises? ==> Step(p, cfg, s, t).log == s.log + [Failed(sid)])
  {
    RequestedStays(s.log, [Failed(sid)], sid);
    RequestedStays(s.log, [Stored(sid, window, e), AuditFailed(window), Failed(sid)], sid);
  }

  /**
   With approval on, a window is stranded by any store failure, and by a store that works when the
   name holds a lone surrogate.
   */
  lemma StrandedAfter(p: Primitives, cfg: Config, serverSeed: Bytes, seed: Bytes, name: UText, outcome: StoreOutcome)
      returns (s: State)
    requires Sound(p) && Configured(cfg) && OwnServer(p, cfg, serverSeed) && cfg.requireApproval
    requires outcome != Saved && Possible(CleanName(name), outcome)
    ensures Reachable(p, cfg, s) && Stranded(s)
    ensures s.pending == Some(0) && Requested(s.log, 0) == Some(HonestEnrollment(p, seed, name))
    ensures outcome.UpsertRaises? && !Encodable(CleanName(name)) ==> StoreWorked(s.log)
  {
    hide Encodable, Requested, Step, Enabled, NormalizeCode, HashCode, Reachable, Unused, OwnServer, Sound, CleanName,
         Stranded, ApprovedFor;
    var code := "K7M2QX4B";
    assert Reachable(p, cfg, Initial) by { StartReachable(p, cfg); }
    var first := FirstWindow(p, cfg, code);
    ReachStep(p, cfg, Initial, first);
    var a := Step(p, cfg, Initial, first);
    NoneMatched(a, 0);
    var submit, yes := HonestApproved(p, cfg, serverSeed, seed, code, name, a, 0, 0.0);
    ReachStep(p, cfg, a, submit);
    var b := Step(p, cfg, a, submit);
    ReachStep(p, cfg, b, yes);
    var c := Step(p, cfg, b, yes);
    var e := HonestEnrollment(p, seed, name);
    FailureStrands(p, cfg, c, 0, a.window.value.id, e, outcome, 0.0);
    var last := Timed(Resume(0, outcome), 0.0);
    ReachStep(p, cfg, c, last);
    s := Step(p, cfg, c, last);
    if outcome.UpsertRaises? && !Encodable(CleanName(name)) { OneFailure(a.log, b.log, c.log, s.log, e); }
  }

  lemma OneFailure(first: seq<Entry>, second: seq<Entry>, third: seq<Entry>, log: seq<Entry>, e: Enrollment)
    requires |first| == 1 && first[0].WindowOpened? && Unstored(first, second) && Unstored(second, third)
    requires log == third + [Failed(0)] && Requested(log, 0) == Some(e) && !Encodable(e.name)
    ensures StoreWorked(log)
  {
    forall i | 0 <= i < |third| ensures !third[i].AuditFailed? && !third[i].Failed? {
      if i == 0 { assert third[0] == first[0]; } else if i < |second| { assert third[i] == second[i]; }
    }
    hide Requested, Encodable;
  }

  lemma NeverAwaits(p: Primitives, cfg: Config, s: State)
    requires Configured(cfg) && Reachable(p, cfg, s) && !cfg.requireApproval
    ensures s.phase != AwaitingApproval
  {
    ReachableInv(p, cfg, s);
  }

  /** Some run strands a window exactly when approval is required. */
  lemma StrandsExactly(p: Primitives, cfg: Config, serverSeed: Bytes)
    requires Sound(p) && Configured(cfg) && OwnServer(p, cfg, serverSeed)
    ensures (exists s :: Reachable(p, cfg, s) && Stranded(s)) <==> cfg.requireApproval
  {
    if cfg.requireApproval {
      var s := StrandedAfter(p, cfg, serverSeed, serverSeed, [0xD800], UpsertRaises);
    } else {
      forall s | Reachable(p, cfg, s) ensures !Stranded(s) { NeverAwaits(p, cfg, s); }
    }
    hide Reachable, Stranded;
  }
}
