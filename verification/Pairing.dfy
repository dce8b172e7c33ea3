/**
 The pairing window. Every stretch of code between two suspension points is one step: the store
 calls at the end of an enrollment run under the lock and belong to the step that makes them. Steps
 of several submissions, the operator, the timers and the control socket may be interleaved in any
 way. Windows and submissions are numbered to tell them apart; the log is the history of a run.
 */
module Pairing {
  import opened Prelude
  import opened Base64Url
  import opened Canonical
  import opened PairingCode
  import opened Crypto
  import opened Auth
  import opened Text
  import opened Unicode

  datatype Phase = Idle | Open | AwaitingApproval

  datatype Config = Config(
    windowS: int, requireApproval: bool, maxAttempts: nat, approvalTimeoutS: nat, serverFp: string)

  /** What the configuration's range checks establish. */
  predicate Configured(cfg: Config)
  {
    15 <= cfg.windowS <= 600 && 1 <= cfg.maxAttempts <= 10 && 10 <= cfg.approvalTimeoutS <= 300
  }

  datatype Window = Window(id: nat, codeHash: Bytes, deadline: real, attemptsLeft: int)

  datatype Enrollment = Enrollment(deviceId: string, pubkey: Bytes, name: UText, platform: string)

  /** The future that the operator's answer completes, or the timeout cancels. */
  datatype Decision = Undecided | Decided(approved: bool) | Cancelled

  /** A submission waiting for its decision; `timedOut` once its timer has fired. */
  datatype Parked = Parked(window: nat, enrollment: Enrollment, since: real, timedOut: bool)

  /** The task that closes a window at its end: sleeping until `due` or finished. */
  datatype ExpiryTask = NoTask | Task(window: nat, due: real, sleeping: bool)

  datatype Event =
    | PairOpened
    | PairRequest(sid: nat)
    | PairCompleted(deviceId: string)
    | PairClosed(reason: string)

  datatype Entry =
    | WindowOpened(window: nat, codeHash: Bytes, deadline: real, at: real)
    | WrongCode(window: nat)
    | Matched(sid: nat, window: nat, code: string, proof: Bytes, enrollment: Enrollment, at: real)
    | Answered(sid: nat, approved: bool)
    | Settled(sid: nat)
    | Stored(sid: nat, window: nat, enrollment: Enrollment)
    | AuditFailed(window: nat)
    | Failed(sid: nat)
    | Abandoned(sid: nat)

  datatype State = State(
    phase: Phase, window: Option<Window>, pending: Option<nat>, expiry: ExpiryTask,
    decisions: map<nat, Decision>, parked: map<nat, Parked>, windows: nat,
    events: seq<Event>, log: seq<Entry>)

  const Initial := State(Idle, None, None, NoTask, map[], map[], 0, [], [])

  /** What the database does with an enrollment. */
  datatype StoreOutcome = Saved | UpsertRaises | AuditRaises

  /** It cannot hold a name with a lone surrogate. */
  predicate Possible(name: UText, outcome: StoreOutcome) { Encodable(name) || outcome.UpsertRaises? }

  /** Platforms are ASCII texts: letters, digits, hyphen and underscore are kept, and no more than 16 of them. */
  function CleanPlatform(value: string): (r: string)
    ensures |r| <= 16
  {
    var cleaned := Filter(Lower(value), PlatformChar);
    if |cleaned| > 16 then cleaned[..16] else cleaned
  }

  predicate PlatformChar(c: char) { IsDigit(c) || 'a' <= c <= 'z' || c == '-' || c == '_' }

  /** The case of letters makes no difference; what is clean is cut, and no more. */
  lemma PlatformKept(a: string)
    ensures CleanPlatform(Lower(a)) == CleanPlatform(a)
    ensures (forall i :: 0 <= i < |a| ==> PlatformChar(a[i]))
            ==> CleanPlatform(a) == if |a| > 16 then a[..16] else a
  {
    assert Lower(Lower(a)) == Lower(a);
    if forall i :: 0 <= i < |a| ==> PlatformChar(a[i]) {
      assert Lower(a) == a;
      FilterKeepsAll(a, PlatformChar);
    }
  }

  lemma FilterDrops(a: string, c: char, b: string)
    requires !PlatformChar(c)
    ensures Filter(a + [c] + b, PlatformChar) == Filter(a + b, PlatformChar)
  {
    FilterAppend(a + [c], b, PlatformChar);
    FilterAppend(a, [c], PlatformChar);
    FilterAppend(a, b, PlatformChar);
    assert [c][1..] == "";
  }

  /** Other characters make no difference. */
  lemma PlatformDrops(a: string, c: char, b: string)
    requires c !in "-_" && !IsDigit(c) && !('a' <= c <= 'z') && !('A' <= c <= 'Z')
    ensures CleanPlatform(a + [c] + b) == CleanPlatform(a + b)
  {
    FilterDrops(Lower(a), c, Lower(b));
    assert Lower(a + [c] + b) == Lower(a) + [c] + Lower(b);
    assert Lower(a + b) == Lower(a) + Lower(b);
    hide Filter, Lower;
  }

  datatype SubmitArgs = SubmitArgs(code: string, pubkeyB64: string, proofB64: string, name: UText, platform: string)

  function HashCode(p: Primitives, code: string): Bytes { p.sha256(ToBytes("wol-unlock/v1/code\n" + code + "\n")) }

  // ---- Steps ----

  function Closed(s: State, reason: string): State
  {
    var settles := s.pending.Some? && s.pending.value in s.decisions && s.decisions[s.pending.value].Undecided?;
    State(
      Idle, None, None, NoTask,
      if settles then s.decisions[s.pending.value := Decided(false)] else s.decisions,
      s.parked, s.windows, s.events + [PairClosed(reason)],
      if settles then s.log + [Settled(s.pending.value)] else s.log)
  }

  /** A requested length of zero means the configured one. */
  function WindowLength(cfg: Config, windowS: Option<int>): int
  {
    if windowS.Some? && windowS.value != 0 then windowS.value else cfg.windowS
  }

  function Begun(p: Primitives, cfg: Config, s: State, windowS: Option<int>, code: string, now: real)
    : (State, Result<(), ErrorCode>)
  {
    var length := WindowLength(cfg, windowS);
    if s.phase != Idle then (s, Err(PairingDisabled))
    else if !(15 <= length <= 600) then (s, Err(BadRequest))
    else
      var deadline := now + length as real;
      var w := Window(s.windows, HashCode(p, code), deadline, cfg.maxAttempts);
      (s.(phase := Open, window := Some(w), expiry := Task(w.id, deadline, true), windows := s.windows + 1,
          events := s.events + [PairOpened],
          log := s.log + [WindowOpened(w.id, w.codeHash, deadline, now)]),
       Ok(()))
  }

  /** Persist the device, announce it, close the window. */
  function Finished(s: State, sid: nat, window: nat, e: Enrollment, outcome: StoreOutcome)
    : (State, Result<Enrollment, ErrorCode>)
  {
    match outcome
    case UpsertRaises => (s.(log := s.log + [Failed(sid)]), Err(InternalError))
    case AuditRaises =>
      (s.(log := s.log + [Stored(sid, window, e), AuditFailed(window), Failed(sid)]), Err(InternalError))
    case Saved =>
      var stored := s.(events := s.events + [PairCompleted(e.deviceId)], log := s.log + [Stored(sid, window, e)]);
      (Closed(stored, "paired"), Ok(e))
  }

  function EnrollmentOf(p: Primitives, pubkey: Bytes, args: SubmitArgs): Enrollment
  {
    Enrollment(DeviceIdFor(p, pubkey), pubkey, CleanName(args.name), CleanPlatform(args.platform))
  }

  /** What a submission comes to before it is stored: a refusal, or a match. */
  datatype Attempt = Refused(error: ErrorCode) | Good(enrollment: Enrollment, proof: Bytes)

  /** The checks of a submission, in order, with what a refusal does to the window. */
  function Attempted(p: Primitives, cfg: Config, s: State, args: SubmitArgs, now: real): (r: (State, Attempt))
    ensures r.1.Good? ==> r.0 == s && s.phase == Open && s.window.Some?
  {
    var pubkey := OfLength(Decode(args.pubkeyB64), Some(PUBKEY_BYTES));
    var proof := OfLength(Decode(args.proofB64), Some(SIGNATURE_BYTES));
    var supplied := NormalizeCode(args.code);
    if pubkey.None? || proof.None? then (s, Refused(BadRequest))
    else if s.phase != Open || s.window.None? then (s, Refused(PairingDisabled))
    else
      var w := s.window.value;
      if now >= w.deadline then (Closed(s, "expired"), Refused(PairingExpired))
      else if HashCode(p, supplied) != w.codeHash then
        var left := w.attemptsLeft - 1;
        var counted := s.(window := Some(w.(attemptsLeft := left)), log := s.log + [WrongCode(w.id)]);
        (if left <= 0 then Closed(counted, "too_many_attempts") else counted, Refused(InvalidCode))
      else match ServicePair(Pair(supplied, Encode(pubkey.value), cfg.serverFp))
        case Err(_) => (s, Refused(InternalError))
        case Ok(message) =>
          if !p.verify(pubkey.value, message, proof.value) then (Closed(s, "bad_proof"), Refused(InvalidSignature))
          else (s, Good(EnrollmentOf(p, pubkey.value, args), proof.value))
  }

  function MatchedState(s: State, sid: nat, code: string, proof: Bytes, e: Enrollment, now: real): State
    requires s.window.Some?
  {
    s.(log := s.log + [Matched(sid, s.window.value.id, code, proof, e, now)])
  }

  /** The submission waits for the operator. */
  function ParkedState(s: State, sid: nat, e: Enrollment, now: real): State
    requires s.window.Some?
  {
    s.(phase := AwaitingApproval, pending := Some(sid), decisions := s.decisions[sid := Undecided],
       parked := s.parked[sid := Parked(s.window.value.id, e, now, false)],
       events := s.events + [PairRequest(sid)])
  }

  /** Up to the wait for the operator, or to the end when no approval is needed. None: it waits. */
  function Submitted(p: Primitives, cfg: Config, s: State, sid: nat, args: SubmitArgs, now: real, outcome: StoreOutcome)
    : (State, Option<Result<Enrollment, ErrorCode>>)
  {
    var (next, attempt) := Attempted(p, cfg, s, args, now);
    match attempt
    case Refused(e) => (next, Some(Err(e)))
    case Good(e, proof) =>
      var matched := MatchedState(s, sid, NormalizeCode(args.code), proof, e, now);
      if cfg.requireApproval then (ParkedState(matched, sid, e, now), None)
      else
        var (done, r) := Finished(matched, sid, s.window.value.id, e, outcome);
        (done, Some(r))
  }

  function Resolved(s: State, approved: bool): (State, bool)
  {
    if s.phase != AwaitingApproval || s.pending.None? then (s, false)
    else
      var sid := s.pending.value;
      if sid !in s.decisions || !s.decisions[sid].Undecided? then (s, false)
      else
        (s.(decisions := s.decisions[sid := Decided(approved)],
            log := s.log + [Answered(sid, approved), Settled(sid)]),
         true)
  }

  predicate TimerDue(cfg: Config, s: State, sid: nat, now: real)
  {
    sid in s.parked && !s.parked[sid].timedOut && now >= s.parked[sid].since + cfg.approvalTimeoutS as real
  }

  /** An undecided answer is cancelled. */
  function GivenUp(decisions: map<nat, Decision>, sid: nat): map<nat, Decision>
  {
    if sid in decisions && decisions[sid].Undecided? then decisions[sid := Cancelled] else decisions
  }

  /** The approval timer: an answer that is already there stays, but is not heard any more. */
  function TimedOutState(s: State, sid: nat): State
    requires sid in s.parked
  {
    s.(decisions := GivenUp(s.decisions, sid),
       parked := s.parked[sid := s.parked[sid].(timedOut := true)])
  }

  predicate CanResume(s: State, sid: nat)
  {
    sid in s.parked && (s.parked[sid].timedOut || (sid in s.decisions && s.decisions[sid].Decided?))
  }

  /** A waiting submission goes on, under the lock again, whatever window is open by now. */
  function Resumed(s: State, sid: nat, outcome: StoreOutcome): (State, Result<Enrollment, ErrorCode>)
    requires CanResume(s, sid)
  {
    var me := s.parked[sid];
    var rest := s.(parked := s.parked - {sid});
    if me.timedOut then (Closed(rest, "approval_timeout"), Err(PairingTimeout))
    else if !s.decisions[sid].approved then (Closed(rest, "denied"), Err(PairingDenied))
    else Finished(rest, sid, me.window, me.enrollment, outcome)
  }

  /** The request handler of a waiting submission is cancelled, and the future it waits for with it. */
  function AbandonedState(s: State, sid: nat): State
    requires sid in s.parked
  {
    s.(decisions := GivenUp(s.decisions, sid),
       parked := s.parked - {sid}, log := s.log + [Abandoned(sid)])
  }

  predicate ExpiryDue(s: State, now: real) { s.expiry.Task? && s.expiry.sleeping && now >= s.expiry.due }

  /** Only a window that is still merely open expires. */
  function Expired(s: State): State
    requires s.expiry.Task?
  {
    var woken := s.(expiry := s.expiry.(sleeping := false));
    if s.phase == Open then Closed(woken, "expired") else woken
  }

  function ShutDown(s: State): State { if s.phase != Idle then Closed(s, "shutdown") else s }

  // ---- Runs ----

  datatype Action =
    | Begin(windowS: Option<int>, code: string)
    | Cancel(reason: string)
    | Submit(sid: nat, args: SubmitArgs, outcome: StoreOutcome)
    | Resolve(approved: bool)
    | ApprovalTimer(sid: nat)
    | Resume(sid: nat, outcome: StoreOutcome)
    | Abandon(sid: nat)
    | Expire
    | Shutdown

  datatype Timed = Timed(action: Action, at: real)

  predicate MatchedIn(log: seq<Entry>, sid: nat) { exists x :: x in log && x.Matched? && x.sid == sid }

  /** What a submission asked for, once its code was right. */
  function Requested(log: seq<Entry>, sid: nat): Option<Enrollment>
  {
    if log == [] then None
    else if log[|log| - 1].Matched? && log[|log| - 1].sid == sid then Some(log[|log| - 1].enrollment)
    else Requested(log[..|log| - 1], sid)
  }

  /** A submission is one call: its number was not used before. */
  predicate Unused(s: State, sid: nat)
  {
    sid !in s.decisions && sid !in s.parked && !MatchedIn(s.log, sid)
  }

  /** The action can happen in this state at this time. */
  predicate Enabled(cfg: Config, s: State, t: Timed)
  {
    match t.action
    case Submit(sid, args, outcome) => Unused(s, sid) && Possible(CleanName(args.name), outcome)
    case ApprovalTimer(sid) => TimerDue(cfg, s, sid, t.at)
    case Resume(sid, outcome) => CanResume(s, sid) && Possible(s.parked[sid].enrollment.name, outcome)
    case Abandon(sid) => sid in s.parked
    case Expire => ExpiryDue(s, t.at)
    case _ => true
  }

  function Step(p: Primitives, cfg: Config, s: State, t: Timed): State
    requires Enabled(cfg, s, t)
  {
    match t.action
    case Begin(windowS, code) => Begun(p, cfg, s, windowS, code, t.at).0
    case Cancel(reason) => Closed(s, reason)
    case Submit(sid, args, outcome) => Submitted(p, cfg, s, sid, args, t.at, outcome).0
    case Resolve(approved) => Resolved(s, approved).0
    case ApprovalTimer(sid) => TimedOutState(s, sid)
    case Resume(sid, outcome) => Resumed(s, sid, outcome).0
    case Abandon(sid) => AbandonedState(s, sid)
    case Expire => Expired(s)
    case Shutdown => ShutDown(s)
  }

  /** What a submission is told in this step, if it is told anything. */
  function AnswerOf(p: Primitives, cfg: Config, s: State, t: Timed): Option<Result<Enrollment, ErrorCode>>
    requires Enabled(cfg, s, t)
  {
    match t.action
    case Submit(sid, args, outcome) => Submitted(p, cfg, s, sid, args, t.at, outcome).1
    case Resume(sid, outcome) => Some(Resumed(s, sid, outcome).1)
    case _ => None
  }

  /** The states that a sequence of actions can lead through, ending in `last`. */
  predicate Runs(p: Primitives, cfg: Config, s: State, run: seq<Timed>, last: State)
    decreases |run|
  {
    if run == [] then last == s
    else Enabled(cfg, s, run[0]) && Runs(p, cfg, Step(p, cfg, s, run[0]), run[1..], last)
  }
}
