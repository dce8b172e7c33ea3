/** What holds of every run of the pairing window, whatever the order of its steps. */
module PairingTheorems {
  import opened Prelude
  import opened Base64Url
  import opened Canonical
  import opened PairingCode
  import opened Crypto
  import opened Pairing
  import opened PairingProofs

  ghost predicate Reachable(p: Primitives, cfg: Config, s: State)
  {
    exists run :: Runs(p, cfg, Initial, run, s)
  }

  lemma ReachableInv(p: Primitives, cfg: Config, s: State)
    requires Configured(cfg) && Reachable(p, cfg, s)
    ensures Inv(p, cfg, s)
  {
    var run :| Runs(p, cfg, Initial, run, s);
    RunKeeps(p, cfg, Initial, run, s);
  }

  // ---- States ----

  /** The phase, the window, the pending submission and the expiry task agree; wrong codes are counted. */
  lemma PhaseIsState(p: Primitives, cfg: Config, s: State)
    requires Configured(cfg) && Reachable(p, cfg, s)
    ensures s.phase == Idle <==> s.window.None?
    ensures s.phase == AwaitingApproval <==> s.pending.Some?
    ensures s.phase == Idle ==> s.expiry == NoTask
    ensures s.phase == Open ==> s.expiry == Task(s.window.value.id, s.window.value.deadline, true)
    ensures s.window.Some? ==>
              1 <= s.window.value.attemptsLeft
              && s.window.value.attemptsLeft + WrongCodes(s.log, s.window.value.id) == cfg.maxAttempts
    ensures forall sid :: sid in s.parked && sid in s.decisions && s.decisions[sid].Undecided? ==>
              s.pending == Some(sid)
  {
    ReachableInv(p, cfg, s);
  }

  // ---- Enrollments ----

  /** Positions of the window's opening, the match, and the enrollment itself. */
  ghost predicate Traced(p: Primitives, cfg: Config, log: seq<Entry>, opening: nat, match_: nat, i: nat)
  {
    && opening < match_ < i < |log|
    && log[opening].WindowOpened? && log[match_].Matched? && log[i].Stored?
    && log[opening].window == log[match_].window == log[i].window
    && log[match_].sid == log[i].sid && log[match_].enrollment == log[i].enrollment
    && HashCode(p, log[match_].code) == log[opening].codeHash
        && log[match_].at < log[opening].deadline <= log[opening].at + 600.0
    && var e := log[i].enrollment;
    && e.deviceId == DeviceIdFor(p, e.pubkey)
    && var message := ServicePair(Pair(log[match_].code, Encode(e.pubkey), cfg.serverFp));
    && message.Ok? && p.verify(e.pubkey, message.value, log[match_].proof)
  }

  ghost predicate OnlyOpening(log: seq<Entry>, opening: nat)
  {
    opening < |log| && log[opening].WindowOpened?
    && forall i :: 0 <= i < |log| && log[i].WindowOpened? && log[i].window == log[opening].window ==> i == opening
  }

  ghost predicate AnsweredBetween(log: seq<Entry>, sid: nat, first: nat, last: nat)
  {
    exists k :: first < k < last < |log| && log[k] == Answered(sid, true)
  }

  lemma HistoryPair(p: Primitives, cfg: Config, log: seq<Entry>, i: nat, j: nat)
    requires History(p, cfg, log) && i < j < |log|
    ensures log[i] in log[..j] && Justified(p, cfg, log[..j], log[j])
  {
    HistoryAt(p, cfg, log, j);
    assert log[..j][i] == log[i];
  }

  lemma OpeningUnique(p: Primitives, cfg: Config, log: seq<Entry>, opening: nat)
    requires History(p, cfg, log) && opening < |log| && log[opening].WindowOpened?
    ensures OnlyOpening(log, opening)
  {
    forall i | 0 <= i < |log| && log[i].WindowOpened? && log[i].window == log[opening].window ensures i == opening {
      if i < opening { HistoryPair(p, cfg, log, i, opening); }
      if opening < i { HistoryPair(p, cfg, log, opening, i); }
    }
    hide History;
  }

  lemma MatchUnique(p: Primitives, cfg: Config, log: seq<Entry>, i: nat, j: nat)
    requires History(p, cfg, log) && i < |log| && j < |log| && log[i].Matched? && log[j].Matched?
    requires log[i].sid == log[j].sid || (cfg.requireApproval && log[i].window == log[j].window)
    ensures i == j
  {
    if i < j { HistoryPair(p, cfg, log, i, j); }
    if j < i { HistoryPair(p, cfg, log, j, i); }
    hide History;
  }

  lemma MatchTraced(p: Primitives, cfg: Config, log: seq<Entry>, i: nat) returns (opening: nat, match_: nat)
    requires History(p, cfg, log) && i < |log| && log[i].Stored?
    ensures Traced(p, cfg, log, opening, match_, i)
  {
    HistoryAt(p, cfg, log, i);
    var m :| m in log[..i] && MatchOf(m, log[i].sid, log[i].window, log[i].enrollment);
    match_ :| 0 <= match_ < i && log[..i][match_] == m;
    HistoryAt(p, cfg, log, match_);
    assert GoodMatch(p, cfg, log[..match_], log[match_]);
    var w :| w in log[..match_] && w.WindowOpened? && w.window == m.window
             && HashCode(p, m.code) == w.codeHash && m.at < w.deadline;
    opening :| 0 <= opening < match_ && log[..match_][opening] == w;
    HistoryAt(p, cfg, log, opening);
    hide History;
  }

  lemma ApprovalFollows(p: Primitives, cfg: Config, log: seq<Entry>, match_: nat, i: nat)
    requires History(p, cfg, log) && match_ < i < |log| && log[i].Stored? && cfg.requireApproval
    requires log[match_].Matched? && log[match_].sid == log[i].sid
    ensures AnsweredBetween(log, log[i].sid, match_, i)
  {
    HistoryAt(p, cfg, log, i);
    var sid := log[i].sid;
    var k :| 0 <= k < i && log[..i][k] == Answered(sid, true);
    HistoryAt(p, cfg, log, k);
    assert MatchedIn(log[..k], sid);
    var m :| 0 <= m < k && log[..k][m].Matched? && log[..k][m].sid == sid;
    MatchUnique(p, cfg, log, m, match_);
    hide History;
  }

  /** The enrollment at `i` goes back to one opening and one match, and to an approval where that is asked for. */
  ghost predicate Proper(p: Primitives, cfg: Config, log: seq<Entry>, i: nat)
  {
    i < |log| && log[i].Stored?
    && exists opening, match_ ::
         && Traced(p, cfg, log, opening, match_, i)
         && OnlyOpening(log, opening)
         && (cfg.requireApproval ==> AnsweredBetween(log, log[i].sid, match_, i))
  }

  lemma StoredProper(p: Primitives, cfg: Config, log: seq<Entry>, i: nat)
    requires History(p, cfg, log) && i < |log| && log[i].Stored?
    ensures Proper(p, cfg, log, i)
  {
    var opening, match_ := MatchTraced(p, cfg, log, i);
    OpeningUnique(p, cfg, log, opening);
    if cfg.requireApproval { ApprovalFollows(p, cfg, log, match_, i); }
    hide Traced, OnlyOpening, AnsweredBetween, History;
  }

  /**
   Every enrollment goes back to the one opening of its window: the window's code was given before its
   deadline, with the key's signature over that code, key and server; where approval is asked for,
   the operator approved that very submission in between.
   */
  lemma EnrollmentTraced(p: Primitives, cfg: Config, s: State, i: nat)
    requires Configured(cfg) && Reachable(p, cfg, s) && i < |s.log| && s.log[i].Stored?
    ensures exists opening, match_ ::
              && Traced(p, cfg, s.log, opening, match_, i)
              && OnlyOpening(s.log, opening)
              && (cfg.requireApproval ==> AnsweredBetween(s.log, s.log[i].sid, match_, i))
  {
    ReachableInv(p, cfg, s);
    StoredProper(p, cfg, s.log, i);
    hide Traced, OnlyOpening, AnsweredBetween, Inv, Reachable;
  }

  ghost predicate OnePerWindow(log: seq<Entry>)
  {
    forall i, j :: 0 <= i < j < |log| && log[i].Stored? && log[j].Stored? ==> log[i].window != log[j].window
  }

  lemma StoredApart(p: Primitives, cfg: Config, log: seq<Entry>, i: nat, j: nat)
    requires History(p, cfg, log) && i < j < |log| && log[i].Stored? && log[j].Stored?
    requires cfg.requireApproval || AuditFailed(log[j].window) !in log
    ensures log[i].window != log[j].window
  {
    HistoryPair(p, cfg, log, i, j);
    if cfg.requireApproval && log[i].window == log[j].window {
      var _, m := MatchTraced(p, cfg, log, i);
      var _, n := MatchTraced(p, cfg, log, j);
      MatchUnique(p, cfg, log, m, n);
    }
    hide History, Traced;
  }

  /** A window enrolls at most one device, unless approval is off and the audit row of one could not be written. */
  lemma OneEnrollmentPerWindow(p: Primitives, cfg: Config, s: State)
    requires Configured(cfg) && Reachable(p, cfg, s)
    requires cfg.requireApproval || forall w :: AuditFailed(w) !in s.log
    ensures OnePerWindow(s.log)
  {
    ReachableInv(p, cfg, s);
    forall i, j | 0 <= i < j < |s.log| && s.log[i].Stored? && s.log[j].Stored?
      ensures s.log[i].window != s.log[j].window
    {
      StoredApart(p, cfg, s.log, i, j);
    }
    hide Inv, History, Reachable;
  }

  // ---- Decisions ----

  ghost predicate StillDecided(s: State, next: State, sid: nat)
  {
    sid in s.decisions && !s.decisions[sid].Undecided? ==>
      sid in next.decisions && next.decisions[sid] == s.decisions[sid]
  }

  lemma CloseSticks(s: State, reason: string, sid: nat)
    ensures StillDecided(s, Closed(s, reason), sid)
  {
  }

  lemma RefusalSticks(p: Primitives, cfg: Config, s: State, args: SubmitArgs, now: real, sid: nat)
    requires Attempted(p, cfg, s, args, now).1.Refused?
    ensures StillDecided(s, Attempted(p, cfg, s, args, now).0, sid)
  {
    RefusalCases(p, cfg, s, args, now);
    hide Attempted, Closed;
    CloseSticks(s, "expired", sid);
    CloseSticks(s, "bad_proof", sid);
    if s.window.Some? { CloseSticks(WrongCounted(s), "too_many_attempts", sid); }
  }

  lemma FinishSticks(s: State, i: nat, window: nat, e: Enrollment, outcome: StoreOutcome, sid: nat)
    ensures StillDecided(s, Finished(s, i, window, e, outcome).0, sid)
  {
  }

  lemma SubmitSticks(
      p: Primitives, cfg: Config, s: State, i: nat, args: SubmitArgs, now: real, outcome: StoreOutcome, sid: nat)
    requires i !in s.decisions
    ensures StillDecided(s, Submitted(p, cfg, s, i, args, now, outcome).0, sid)
  {
    hide Attempted, Finished;
    var a := Attempted(p, cfg, s, args, now).1;
    if a.Refused? {
      RefusalSticks(p, cfg, s, args, now, sid);
    } else {
      var t := MatchedState(s, i, NormalizeCode(args.code), a.proof, a.enrollment, now);
      FinishSticks(t, i, s.window.value.id, a.enrollment, outcome, sid);
    }
  }

  lemma ResumeSticks(s: State, i: nat, outcome: StoreOutcome, sid: nat)
    requires CanResume(s, i)
    ensures StillDecided(s, Resumed(s, i, outcome).0, sid)
  {
    hide Finished;
    var rest := s.(parked := s.parked - {i});
    FinishSticks(rest, i, s.parked[i].window, s.parked[i].enrollment, outcome, sid);
  }

  /** A decision that was made or given up stays as it is. */
  lemma DecisionsStick(p: Primitives, cfg: Config, s: State, t: Timed, sid: nat)
    requires Enabled(cfg, s, t)
    ensures StillDecided(s, Step(p, cfg, s, t), sid)
  {
    match t.action
    case Submit(i, args, outcome) =>
      SubmitSticks(p, cfg, s, i, args, t.at, outcome, sid);
      hide Submitted;
    case Resume(i, outcome) =>
      ResumeSticks(s, i, outcome, sid);
      hide Resumed;
    case _ => {}
  }

  /** Each submission's decision is completed at most once in a run, and exactly when it ends up decided. */
  lemma CompletedOnce(p: Primitives, cfg: Config, s: State, sid: nat)
    requires Configured(cfg) && Reachable(p, cfg, s)
    ensures forall i, j :: 0 <= i < j < |s.log| && s.log[i] == Settled(sid) ==> s.log[j] != Settled(sid)
    ensures Settled(sid) in s.log <==> sid in s.decisions && s.decisions[sid].Decided?
  {
    ReachableInv(p, cfg, s);
    forall i, j | 0 <= i < j < |s.log| && s.log[i] == Settled(sid) ensures s.log[j] != Settled(sid) {
      HistoryPair(p, cfg, s.log, i, j);
    }
  }

  /** The timer of a waiting submission fires no earlier than the approval timeout after its match. */
  lemma ApprovalWaits(p: Primitives, cfg: Config, s: State, sid: nat, at: real)
    requires Configured(cfg) && Reachable(p, cfg, s) && Enabled(cfg, s, Timed(ApprovalTimer(sid), at))
    ensures exists x :: x in s.log && x.Matched? && x.sid == sid && at >= x.at + cfg.approvalTimeoutS as real
  {
    ReachableInv(p, cfg, s);
    assert Announced(s.log, sid, s.parked[sid]);
    var x :| x in s.log && MatchOf(x, sid, s.parked[sid].window, s.parked[sid].enrollment)
        && x.at == s.parked[sid].since;
    hide Shape, Waiting, History, Reported, Linked;
  }

  // ---- Events ----

  /** The event stream tells whether a window is open, and a completed pairing closes it at once. */
  lemma EventsTellState(p: Primitives, cfg: Config, s: State)
    requires Configured(cfg) && Reachable(p, cfg, s)
    ensures Follow(s.events) <==> s.phase != Idle
    ensures forall i :: 0 <= i < |s.events| && s.events[i].PairCompleted? ==>
              i + 1 < |s.events| && s.events[i + 1] == PairClosed("paired")
  {
    ReachableInv(p, cfg, s);
  }
}
