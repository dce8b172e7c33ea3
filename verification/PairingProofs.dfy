/** What every step of the pairing window keeps. */
module PairingProofs {
  import opened Prelude
  import opened Base64Url
  import opened Canonical
  import opened PairingCode
  import opened Crypto
  import opened Pairing

  // ---- The invariants ----

  /** The phase says exactly what exists; an open window has a sleeping task that ends it. */
  ghost predicate Shape(cfg: Config, s: State)
  {
    && (s.phase == Idle <==> s.window.None?)
    && (s.phase == AwaitingApproval <==> s.pending.Some?)
    && (s.phase == AwaitingApproval ==> cfg.requireApproval)
    && (s.phase == Idle ==> s.expiry == NoTask)
    && (s.window.Some? ==>
          var w := s.window.value;
          && w.id + 1 == s.windows
          && 1 <= w.attemptsLeft
          && w.attemptsLeft + WrongCodes(s.log, w.id) == cfg.maxAttempts
          && s.expiry.Task? && s.expiry.window == w.id && s.expiry.due == w.deadline
          && (s.phase == Open ==> s.expiry.sleeping))
  }

  function WrongCodes(log: seq<Entry>, window: nat): nat
  {
    if log == [] then 0
    else WrongCodes(log[..|log| - 1], window) + if log[|log| - 1] == WrongCode(window) then 1 else 0
  }

  /** Who waits for what: an undecided submission is the pending one, and only it can be answered. */
  ghost predicate Waiting(s: State)
  {
    && (s.pending.Some? ==> s.pending.value in s.decisions)
    && (forall sid :: sid in s.parked ==> sid in s.decisions)
    && (forall sid :: sid in s.decisions && s.decisions[sid].Undecided? ==> sid in s.parked)
    && (forall sid :: sid in s.parked && s.parked[sid].timedOut ==> !s.decisions[sid].Undecided?)
    && (forall sid :: sid in s.parked && s.decisions[sid].Undecided? ==> s.pending == Some(sid))
    && (forall sid :: sid in s.parked && s.decisions[sid].Cancelled? ==> s.parked[sid].timedOut)
    && (forall sid :: Settled(sid) in s.log <==> sid in s.decisions && s.decisions[sid].Decided?)
    && (forall sid :: sid in s.decisions && s.decisions[sid] == Decided(true) ==> Answered(sid, true) in s.log)
    && (forall sid :: sid in s.decisions ==> MatchedIn(s.log, sid))
    && (forall x :: x in s.log && x.Answered? ==> Settled(x.sid) in s.log)
  }

  ghost predicate MatchOf(x: Entry, sid: nat, window: nat, e: Enrollment)
  {
    x.Matched? && x.sid == sid && x.window == window && x.enrollment == e
  }

  ghost predicate OpeningIn(log: seq<Entry>, w: Window)
  {
    exists x :: x in log && x.WindowOpened? && x.window == w.id && x.codeHash == w.codeHash && x.deadline == w.deadline
  }

  /** What the waiting submissions and the open window have in the log. */
  ghost predicate Tied(cfg: Config, s: State)
  {
    && (forall sid :: sid in s.parked ==> cfg.requireApproval && Announced(s.log, sid, s.parked[sid]))
    && (s.window.Some? ==> OpeningIn(s.log, s.window.value))
    && (forall x :: x in s.log && x.WindowOpened? ==> x.window < s.windows)
    && (forall x :: x in s.log && (x.Matched? || x.Stored? || x.WrongCode?) ==> x.window < s.windows)
  }

  ghost predicate Linked(cfg: Config, s: State)
  {
    Tied(cfg, s) && (s.phase == Open ==> OpenToMatch(cfg, s.log, s.window))
  }

  /** Its match is in the log and its enrollment is not. */
  ghost predicate Announced(log: seq<Entry>, sid: nat, me: Parked)
  {
    && (exists x :: x in log && MatchOf(x, sid, me.window, me.enrollment) && x.at == me.since)
    && (forall x :: x in log && x.Stored? ==> x.sid != sid)
  }

  /** Nothing matched in the open window yet; without approval, nothing but what failed to finish. */
  ghost predicate OpenToMatch(cfg: Config, log: seq<Entry>, window: Option<Window>)
  {
    window.Some? ==>
      if cfg.requireApproval then forall x :: x in log && x.Matched? ==> x.window != window.value.id
      else forall x :: x in log && x.Stored? && x.window == window.value.id ==> AuditFailed(window.value.id) in log
  }

  /** A match: the window's own code, in time, with the key's signature over code, key and server. */
  ghost predicate GoodMatch(p: Primitives, cfg: Config, before: seq<Entry>, x: Entry)
    requires x.Matched?
  {
    && (exists w :: w in before && w.WindowOpened? && w.window == x.window
                    && HashCode(p, x.code) == w.codeHash && x.at < w.deadline)
    && x.enrollment.deviceId == DeviceIdFor(p, x.enrollment.pubkey)
    && var message := ServicePair(Pair(x.code, Encode(x.enrollment.pubkey), cfg.serverFp));
    && message.Ok? && p.verify(x.enrollment.pubkey, message.value, x.proof)
  }

  /** An enrollment: matched, approved where approval is asked for, and the only one of its window. */
  ghost predicate GoodStored(cfg: Config, before: seq<Entry>, x: Entry)
    requires x.Stored?
  {
    && (exists m :: m in before && MatchOf(m, x.sid, x.window, x.enrollment))
    && (cfg.requireApproval ==> Answered(x.sid, true) in before)
    && (forall y :: y in before && y.Stored? ==> y.sid != x.sid)
    && (!cfg.requireApproval ==>
          forall y :: y in before && y.Stored? && y.window == x.window ==> AuditFailed(x.window) in before)
  }

  ghost predicate Justified(p: Primitives, cfg: Config, before: seq<Entry>, x: Entry)
  {
    match x
    case WindowOpened(w, _, deadline, at) =>
      && at + 15.0 <= deadline <= at + 600.0
      && (forall y :: y in before && y.WindowOpened? ==> y.window != w)
    case Matched(sid, w, _, _, _, _) =>
      && GoodMatch(p, cfg, before, x)
      && (forall y :: y in before && y.Matched? ==> y.sid != sid && (cfg.requireApproval ==> y.window != w))
    case Answered(sid, _) =>
      && MatchedIn(before, sid)
      && (forall y :: y in before && y.Answered? ==> y.sid != sid)
    case Settled(sid) => Settled(sid) !in before
    case Stored(_, _, _) => GoodStored(cfg, before, x)
    case _ => true
  }

  ghost predicate History(p: Primitives, cfg: Config, log: seq<Entry>)
  {
    log == [] || (History(p, cfg, log[..|log| - 1]) && Justified(p, cfg, log[..|log| - 1], log[|log| - 1]))
  }

  /** Following the events tells whether a window is open. */
  function Follow(events: seq<Event>): bool
  {
    if events == [] then false
    else match events[|events| - 1]
      case PairOpened => true
      case PairClosed(_) => false
      case _ => Follow(events[..|events| - 1])
  }

  ghost predicate Reported(s: State)
  {
    && (Follow(s.events) <==> s.phase != Idle)
    && CompletionsClose(s.events)
  }

  ghost predicate CompletionsClose(events: seq<Event>)
  {
    forall i :: 0 <= i < |events| && events[i].PairCompleted? ==>
      i + 1 < |events| && events[i + 1] == PairClosed("paired")
  }

  ghost predicate Inv(p: Primitives, cfg: Config, s: State)
  {
    Shape(cfg, s) && Waiting(s) && Linked(cfg, s) && History(p, cfg, s.log) && Reported(s)
  }

  // ---- Growing the log ----

  lemma HistoryAppend(p: Primitives, cfg: Config, log: seq<Entry>, x: Entry)
    requires History(p, cfg, log) && Justified(p, cfg, log, x)
    ensures History(p, cfg, log + [x])
  {
    assert (log + [x])[..|log|] == log;
  }

  lemma {:induction false} HistoryAt(p: Primitives, cfg: Config, log: seq<Entry>, i: nat)
    requires History(p, cfg, log) && i < |log|
    ensures Justified(p, cfg, log[..i], log[i])
  {
    if i < |log| - 1 {
      HistoryAt(p, cfg, log[..|log| - 1], i);
      assert log[..|log| - 1][..i] == log[..i];
    }
  }

  lemma WrongAppend(log: seq<Entry>, x: Entry, window: nat)
    ensures WrongCodes(log + [x], window) == WrongCodes(log, window) + if x == WrongCode(window) then 1 else 0
  {
    assert (log + [x])[..|log|] == log;
  }

  lemma {:induction false} NoWrong(log: seq<Entry>, window: nat)
    requires forall x :: x in log && x.WrongCode? ==> x.window != window
    ensures WrongCodes(log, window) == 0
  {
    if log != [] { NoWrong(log[..|log| - 1], window); }
  }

  lemma FollowAppend(events: seq<Event>, x: Event)
    ensures Follow(events + [x]) == (x.PairOpened? || (!x.PairClosed? && Follow(events)))
  {
    assert (events + [x])[..|events|] == events;
  }

  lemma TiedAppend(cfg: Config, s: State, x: Entry)
    requires Tied(cfg, s)
    requires x.WindowOpened? || x.Matched? || x.Stored? || x.WrongCode? ==> x.window < s.windows
    requires x.Stored? ==> x.sid !in s.parked
    ensures Tied(cfg, s.(log := s.log + [x]))
  {
    forall sid | sid in s.parked ensures Announced(s.log + [x], sid, s.parked[sid]) {
      assert Announced(s.log, sid, s.parked[sid]);
    }
  }

  lemma WaitingAppend(s: State, x: Entry)
    requires Waiting(s) && !x.Settled? && !x.Answered?
    ensures Waiting(s.(log := s.log + [x]))
  {
    forall sid | sid in s.decisions ensures MatchedIn(s.log + [x], sid) {
      assert MatchedIn(s.log, sid);
    }
  }

  lemma ShapeAppend(cfg: Config, s: State, x: Entry)
    requires Shape(cfg, s) && !x.WrongCode?
    ensures Shape(cfg, s.(log := s.log + [x]))
  {
    if s.window.Some? { WrongAppend(s.log, x, s.window.value.id); }
  }

  // ---- Closing ----

  /** What closing needs: everything but the window's own state. */
  ghost predicate Base(p: Primitives, cfg: Config, s: State)
  {
    Waiting(s) && Tied(cfg, s) && History(p, cfg, s.log) && CompletionsClose(s.events)
  }

  lemma CloseWaiting(s: State, reason: string)
    requires Waiting(s)
    ensures Waiting(Closed(s, reason))
  {
  }

  lemma CloseTied(cfg: Config, s: State, reason: string)
    requires Tied(cfg, s)
    ensures Linked(cfg, Closed(s, reason))
  {
    var t := Closed(s, reason);
    forall sid | sid in t.parked ensures Announced(t.log, sid, t.parked[sid]) {
      assert Announced(s.log, sid, s.parked[sid]);
    }
  }

  lemma CloseHistory(p: Primitives, cfg: Config, s: State, reason: string)
    requires Waiting(s) && History(p, cfg, s.log)
    ensures History(p, cfg, Closed(s, reason).log)
  {
    if Closed(s, reason).log != s.log { HistoryAppend(p, cfg, s.log, Settled(s.pending.value)); }
  }

  lemma CloseReported(s: State, reason: string)
    requires CompletionsClose(s.events)
    ensures Reported(Closed(s, reason))
  {
    FollowAppend(s.events, PairClosed(reason));
  }

  lemma CloseCompletes(s: State, deviceId: string)
    requires CompletionsClose(s.events)
    ensures Reported(Closed(s.(events := s.events + [PairCompleted(deviceId)]), "paired"))
  {
    FollowAppend(s.events + [PairCompleted(deviceId)], PairClosed("paired"));
  }

  lemma CloseKeeps(p: Primitives, cfg: Config, s: State, reason: string)
    requires Base(p, cfg, s)
    ensures Inv(p, cfg, Closed(s, reason))
  {
    CloseWaiting(s, reason);
    CloseTied(cfg, s, reason);
    CloseHistory(p, cfg, s, reason);
    CloseReported(s, reason);
    hide Linked, Waiting, History, Reported, Tied, CompletionsClose;
  }

  // ---- Opening ----

  lemma BeginShape(p: Primitives, cfg: Config, s: State, windowS: Option<int>, code: string, now: real)
    requires Configured(cfg) && Shape(cfg, s) && Linked(cfg, s)
    ensures Shape(cfg, Begun(p, cfg, s, windowS, code, now).0)
  {
    var t := Begun(p, cfg, s, windowS, code, now).0;
    if t != s {
      NoWrong(s.log, s.windows);
      WrongAppend(s.log, t.log[|s.log|], s.windows);
    }
  }

  lemma BeginLinked(p: Primitives, cfg: Config, s: State, windowS: Option<int>, code: string, now: real)
    requires Linked(cfg, s)
    ensures Linked(cfg, Begun(p, cfg, s, windowS, code, now).0)
  {
    var t := Begun(p, cfg, s, windowS, code, now).0;
    if t != s {
      var x := t.log[|s.log|];
      var u := s.(windows := s.windows + 1);
      assert Tied(cfg, u) by {
        forall sid | sid in s.parked ensures Announced(s.log, sid, s.parked[sid]) {}
      }
      TiedAppend(cfg, u, x);
      WindowTied(cfg, u.(log := u.log + [x]), t);
      assert OpenToMatch(cfg, t.log, t.window);
      hide Tied;
    }
  }

  lemma WindowTied(cfg: Config, u: State, t: State)
    requires Tied(cfg, u) && t.window.Some? && t.log == u.log && t.parked == u.parked && t.windows == u.windows
    requires OpeningIn(t.log, t.window.value)
    ensures Tied(cfg, t)
  {
    forall sid | sid in t.parked ensures Announced(t.log, sid, t.parked[sid]) {
      assert Announced(u.log, sid, u.parked[sid]);
    }
  }

  lemma BeginWaiting(p: Primitives, cfg: Config, s: State, windowS: Option<int>, code: string, now: real)
    requires Waiting(s)
    ensures Waiting(Begun(p, cfg, s, windowS, code, now).0)
  {
    var t := Begun(p, cfg, s, windowS, code, now).0;
    if t != s { WaitingAppend(s, t.log[|s.log|]); }
  }

  lemma BeginHistory(p: Primitives, cfg: Config, s: State, windowS: Option<int>, code: string, now: real)
    requires Linked(cfg, s) && History(p, cfg, s.log)
    ensures History(p, cfg, Begun(p, cfg, s, windowS, code, now).0.log)
  {
    var t := Begun(p, cfg, s, windowS, code, now).0;
    if t != s { HistoryAppend(p, cfg, s.log, t.log[|s.log|]); }
  }

  lemma BeginReported(p: Primitives, cfg: Config, s: State, windowS: Option<int>, code: string, now: real)
    requires Reported(s)
    ensures Reported(Begun(p, cfg, s, windowS, code, now).0)
  {
    hide HashCode;
    FollowAppend(s.events, PairOpened);
  }

  lemma BeginKeeps(p: Primitives, cfg: Config, s: State, windowS: Option<int>, code: string, now: real)
    requires Configured(cfg) && Inv(p, cfg, s)
    ensures Inv(p, cfg, Begun(p, cfg, s, windowS, code, now).0)
  {
    BeginShape(p, cfg, s, windowS, code, now);
    BeginLinked(p, cfg, s, windowS, code, now);
    BeginWaiting(p, cfg, s, windowS, code, now);
    BeginHistory(p, cfg, s, windowS, code, now);
    BeginReported(p, cfg, s, windowS, code, now);
    hide Shape, Linked, Waiting, History, Reported, Begun;
  }

  // ---- Submitting ----

  function WrongCounted(s: State): State
    requires s.window.Some?
  {
    var w := s.window.value;
    s.(window := Some(w.(attemptsLeft := w.attemptsLeft - 1)), log := s.log + [WrongCode(w.id)])
  }

  lemma WrongCodeBase(p: Primitives, cfg: Config, s: State)
    requires Inv(p, cfg, s) && s.phase == Open && s.window.Some?
    ensures Base(p, cfg, WrongCounted(s)) && Reported(WrongCounted(s))
  {
    var x := WrongCode(s.window.value.id);
    HistoryAppend(p, cfg, s.log, x);
    WaitingAppend(s, x);
    TiedAppend(cfg, s, x);
    var t := s.(log := s.log + [x]);
    var u := WrongCounted(s);
    assert Waiting(u) by { SameWaiting(t, u); }
    assert Tied(cfg, u) by { WindowTied(cfg, t, u); }
    hide History, WrongCodes, Waiting, Tied;
  }

  lemma SameWaiting(t: State, u: State)
    requires Waiting(t) && u.pending == t.pending && u.decisions == t.decisions && u.parked == t.parked
              && u.log == t.log
    ensures Waiting(u)
  {
  }

  lemma WrongCodeKeeps(p: Primitives, cfg: Config, s: State)
    requires Inv(p, cfg, s) && s.phase == Open && s.window.Some? && s.window.value.attemptsLeft > 1
    ensures Inv(p, cfg, WrongCounted(s))
  {
    WrongCodeBase(p, cfg, s);
    WrongAppend(s.log, WrongCode(s.window.value.id), s.window.value.id);
    hide History, WrongCodes, Waiting, Tied, Reported;
  }

  lemma MatchGood(p: Primitives, cfg: Config, s: State, args: SubmitArgs, now: real)
    requires Inv(p, cfg, s)
    requires Attempted(p, cfg, s, args, now).1.Good?
    ensures var a := Attempted(p, cfg, s, args, now).1;
            GoodMatch(p, cfg, s.log,
                Matched(0, s.window.value.id, NormalizeCode(args.code), a.proof, a.enrollment, now))
  {
    hide History, Waiting, Reported, WrongCodes;
    var w := s.window.value;
    assert OpeningIn(s.log, w);
  }

  /** A match leaves the window as it was. */
  lemma MatchedKeeps(p: Primitives, cfg: Config, s: State, sid: nat, args: SubmitArgs, now: real)
    requires Inv(p, cfg, s) && Unused(s, sid)
    requires Attempted(p, cfg, s, args, now).1.Good?
    ensures var a := Attempted(p, cfg, s, args, now).1;
            var t := MatchedState(s, sid, NormalizeCode(args.code), a.proof, a.enrollment, now);
            Shape(cfg, t) && Base(p, cfg, t) && Reported(t)
  {
    var a := Attempted(p, cfg, s, args, now).1;
    var x := Matched(sid, s.window.value.id, NormalizeCode(args.code), a.proof, a.enrollment, now);
    MatchGood(p, cfg, s, args, now);
    MatchNew(cfg, s, sid);
    HistoryAppend(p, cfg, s.log, x);
    WaitingAppend(s, x);
    TiedAppend(cfg, s, x);
    ShapeAppend(cfg, s, x);
    hide History, WrongCodes, Attempted, Waiting, Tied, Shape, GoodMatch;
  }

  lemma MatchNew(cfg: Config, s: State, sid: nat)
    requires Unused(s, sid) && Linked(cfg, s) && s.phase == Open && s.window.Some?
    ensures forall y :: y in s.log && y.Matched? ==>
              y.sid != sid && (cfg.requireApproval ==> y.window != s.window.value.id)
  {
  }

  /** What each refusal of a submission does, and when. */
  lemma RefusalCases(p: Primitives, cfg: Config, s: State, args: SubmitArgs, now: real)
    requires Attempted(p, cfg, s, args, now).1.Refused?
    ensures var next := Attempted(p, cfg, s, args, now).0;
            var right := s.window.Some? && HashCode(p, NormalizeCode(args.code)) == s.window.value.codeHash;
            || next == s
            || (s.phase == Open && s.window.Some?
                && (|| (next == Closed(s, "expired") && now >= s.window.value.deadline)
                    || (next == Closed(s, "bad_proof") && now < s.window.value.deadline && right)
                    || (now < s.window.value.deadline && !right
                        && next == if s.window.value.attemptsLeft > 1 then WrongCounted(s)
                                   else Closed(WrongCounted(s), "too_many_attempts"))))
  {
    hide Closed, HashCode;
  }

  lemma RefusalKeeps(p: Primitives, cfg: Config, s: State, args: SubmitArgs, now: real)
    requires Inv(p, cfg, s) && Attempted(p, cfg, s, args, now).1.Refused?
    ensures Inv(p, cfg, Attempted(p, cfg, s, args, now).0)
  {
    RefusalCases(p, cfg, s, args, now);
    hide Attempted, Closed, History, Waiting, Tied, CompletionsClose, WrongCodes, Follow, WrongCounted, OpenToMatch;
    if s.phase == Open && s.window.Some? {
      WrongCodeBase(p, cfg, s);
      if s.window.value.attemptsLeft > 1 { WrongCodeKeeps(p, cfg, s); }
      CloseKeeps(p, cfg, WrongCounted(s), "too_many_attempts");
      CloseKeeps(p, cfg, s, "expired");
      CloseKeeps(p, cfg, s, "bad_proof");
    }
  }

  lemma ParkWaiting(s: State, sid: nat, e: Enrollment, now: real)
    requires Waiting(s) && s.window.Some? && s.pending.None? && sid !in s.decisions && sid !in s.parked
    requires MatchedIn(s.log, sid)
    ensures Waiting(ParkedState(s, sid, e, now))
  {
  }

  lemma ParkTied(cfg: Config, s: State, sid: nat, e: Enrollment, now: real)
    requires Tied(cfg, s) && s.window.Some? && cfg.requireApproval
    requires exists x :: x in s.log && MatchOf(x, sid, s.window.value.id, e) && x.at == now
    requires forall x :: x in s.log && x.Stored? ==> x.sid != sid
    ensures Tied(cfg, ParkedState(s, sid, e, now))
  {
    var t := ParkedState(s, sid, e, now);
    forall i | i in t.parked ensures Announced(t.log, i, t.parked[i]) {
      if i != sid { assert Announced(s.log, i, s.parked[i]); }
    }
  }

  lemma ParkReported(s: State, sid: nat, e: Enrollment, now: real)
    requires Reported(s) && s.phase == Open && s.window.Some?
    ensures Reported(ParkedState(s, sid, e, now))
  {
    FollowAppend(s.events, PairRequest(sid));
  }

  lemma ParkKeeps(p: Primitives, cfg: Config, s: State, sid: nat, e: Enrollment, now: real)
    requires Shape(cfg, s) && Base(p, cfg, s) && Reported(s) && s.phase == Open
    requires sid !in s.decisions && sid !in s.parked && cfg.requireApproval
    requires exists x :: x in s.log && MatchOf(x, sid, s.window.value.id, e) && x.at == now
    requires forall x :: x in s.log && x.Stored? ==> x.sid != sid
    ensures Inv(p, cfg, ParkedState(s, sid, e, now))
  {
    ParkWaiting(s, sid, e, now);
    ParkTied(cfg, s, sid, e, now);
    ParkReported(s, sid, e, now);
    hide Waiting, Tied, Reported, History, CompletionsClose;
  }

  // ---- Finishing ----

  /** An enrollment is finished once, for a match that was approved where that is needed. */
  ghost predicate MayFinish(cfg: Config, s: State, sid: nat, window: nat, e: Enrollment)
  {
    sid !in s.parked && window < s.windows && GoodStored(cfg, s.log, Stored(sid, window, e))
  }

  lemma StoredBase(p: Primitives, cfg: Config, s: State, sid: nat, window: nat, e: Enrollment)
    requires Base(p, cfg, s) && MayFinish(cfg, s, sid, window, e)
    ensures Base(p, cfg, s.(log := s.log + [Stored(sid, window, e)]))
  {
    var x := Stored(sid, window, e);
    HistoryAppend(p, cfg, s.log, x);
    WaitingAppend(s, x);
    TiedAppend(cfg, s, x);
    hide Waiting, Tied, History, CompletionsClose, GoodStored;
  }

  lemma NoteBase(p: Primitives, cfg: Config, s: State, x: Entry)
    requires Base(p, cfg, s) && (x.AuditFailed? || x.Failed? || x.Abandoned?)
    ensures Base(p, cfg, s.(log := s.log + [x]))
  {
    HistoryAppend(p, cfg, s.log, x);
    WaitingAppend(s, x);
    TiedAppend(cfg, s, x);
    hide Waiting, Tied, History, CompletionsClose;
  }

  lemma NoteKeeps(p: Primitives, cfg: Config, s: State, x: Entry)
    requires Shape(cfg, s) && Base(p, cfg, s) && Reported(s) && (x.Failed? || x.Abandoned?)
    requires s.phase == Open ==> OpenToMatch(cfg, s.log, s.window)
    ensures Inv(p, cfg, s.(log := s.log + [x]))
  {
    NoteBase(p, cfg, s, x);
    ShapeAppend(cfg, s, x);
    hide Waiting, Tied, History, CompletionsClose, WrongCodes;
  }

  lemma UpsertRaisesKeeps(p: Primitives, cfg: Config, s: State, sid: nat, window: nat, e: Enrollment)
    requires Shape(cfg, s) && Base(p, cfg, s) && Reported(s) && (s.phase == Open ==> OpenToMatch(cfg, s.log, s.window))
    ensures Inv(p, cfg, Finished(s, sid, window, e, UpsertRaises).0)
  {
    NoteKeeps(p, cfg, s, Failed(sid));
    hide Waiting, Tied, History, CompletionsClose, Shape, Reported, Linked;
  }

  function Unaudited(s: State, sid: nat, window: nat, e: Enrollment): State
  {
    var t := s.(log := s.log + [Stored(sid, window, e)]);
    t.(log := t.log + [AuditFailed(window)])
  }

  lemma UnauditedBase(p: Primitives, cfg: Config, s: State, sid: nat, window: nat, e: Enrollment)
    requires Shape(cfg, s) && Base(p, cfg, s) && MayFinish(cfg, s, sid, window, e)
    ensures Shape(cfg, Unaudited(s, sid, window, e)) && Base(p, cfg, Unaudited(s, sid, window, e))
  {
    var t := s.(log := s.log + [Stored(sid, window, e)]);
    StoredBase(p, cfg, s, sid, window, e);
    ShapeAppend(cfg, s, Stored(sid, window, e));
    NoteBase(p, cfg, t, AuditFailed(window));
    ShapeAppend(cfg, t, AuditFailed(window));
    hide Waiting, Tied, History, CompletionsClose, Shape;
  }

  lemma UnauditedOpen(cfg: Config, s: State, sid: nat, window: nat, e: Enrollment)
    requires s.phase == Open && OpenToMatch(cfg, s.log, s.window)
    ensures OpenToMatch(cfg, Unaudited(s, sid, window, e).log, s.window)
  {
  }

  lemma AuditRaisesKeeps(p: Primitives, cfg: Config, s: State, sid: nat, window: nat, e: Enrollment)
    requires Shape(cfg, s) && Base(p, cfg, s) && Reported(s) && (s.phase == Open ==> OpenToMatch(cfg, s.log, s.window))
    requires MayFinish(cfg, s, sid, window, e)
    ensures Inv(p, cfg, Finished(s, sid, window, e, AuditRaises).0)
  {
    hide Waiting, Tied, History, CompletionsClose, Shape, OpenToMatch, MayFinish, Inv, Base, Follow;
    var u := Unaudited(s, sid, window, e);
    UnauditedBase(p, cfg, s, sid, window, e);
    if s.phase == Open { UnauditedOpen(cfg, s, sid, window, e); }
    NoteKeeps(p, cfg, u, Failed(sid));
    assert u.log + [Failed(sid)] == s.log + [Stored(sid, window, e), AuditFailed(window), Failed(sid)];
  }

  lemma SavedKeeps(p: Primitives, cfg: Config, s: State, sid: nat, window: nat, e: Enrollment)
    requires Base(p, cfg, s) && MayFinish(cfg, s, sid, window, e)
    ensures Inv(p, cfg, Finished(s, sid, window, e, Saved).0)
  {
    var t := s.(log := s.log + [Stored(sid, window, e)]);
    StoredBase(p, cfg, s, sid, window, e);
    CloseKeeps(p, cfg, t, "paired");
    CloseCompletes(t, e.deviceId);
    EventsApart(p, cfg, t, e.deviceId);
    hide Waiting, Tied, History, CompletionsClose, Shape, Reported, Linked;
  }

  /** The events play no part in what else is kept. */
  lemma EventsApart(p: Primitives, cfg: Config, t: State, deviceId: string)
    requires Inv(p, cfg, Closed(t, "paired"))
    requires Reported(Closed(t.(events := t.events + [PairCompleted(deviceId)]), "paired"))
    ensures Inv(p, cfg, Closed(t.(events := t.events + [PairCompleted(deviceId)]), "paired"))
  {
    hide History, CompletionsClose, Reported, WrongCodes;
  }

  lemma FinishKeeps(p: Primitives, cfg: Config, s: State, sid: nat, window: nat, e: Enrollment, outcome: StoreOutcome)
    requires Shape(cfg, s) && Base(p, cfg, s) && Reported(s) && (s.phase == Open ==> OpenToMatch(cfg, s.log, s.window))
    requires MayFinish(cfg, s, sid, window, e)
    ensures Inv(p, cfg, Finished(s, sid, window, e, outcome).0)
  {
    match outcome
    case UpsertRaises => UpsertRaisesKeeps(p, cfg, s, sid, window, e);
    case AuditRaises => AuditRaisesKeeps(p, cfg, s, sid, window, e);
    case Saved => SavedKeeps(p, cfg, s, sid, window, e);
  }

  // ---- Steps ----

  lemma MatchMay(p: Primitives, cfg: Config, s: State, sid: nat, args: SubmitArgs, now: real)
    requires Inv(p, cfg, s) && Unused(s, sid) && Attempted(p, cfg, s, args, now).1.Good?
    ensures var a := Attempted(p, cfg, s, args, now).1;
            var t := MatchedState(s, sid, NormalizeCode(args.code), a.proof, a.enrollment, now);
            && (exists x :: x in t.log && MatchOf(x, sid, s.window.value.id, a.enrollment) && x.at == now)
            && (forall x :: x in t.log && x.Stored? ==> x.sid != sid)
            && (!cfg.requireApproval ==>
                  OpenToMatch(cfg, t.log, t.window) && MayFinish(cfg, t, sid, s.window.value.id, a.enrollment))
  {
    hide Attempted, NormalizeCode, History, Waiting, Shape, Reported;
    var a := Attempted(p, cfg, s, args, now).1;
    var t := MatchedState(s, sid, NormalizeCode(args.code), a.proof, a.enrollment, now);
    assert MatchOf(t.log[|s.log|], sid, s.window.value.id, a.enrollment);
    NeverStored(p, cfg, s.log, sid);
  }

  lemma SubmitKeeps(
      p: Primitives, cfg: Config, s: State, sid: nat, args: SubmitArgs, now: real, outcome: StoreOutcome)
    requires Inv(p, cfg, s) && Unused(s, sid)
    ensures Inv(p, cfg, Submitted(p, cfg, s, sid, args, now, outcome).0)
  {
    hide Attempted, Finished, Inv, Base, Shape, Reported, ParkedState, OpenToMatch, MayFinish, MatchOf, NormalizeCode;
    var a := Attempted(p, cfg, s, args, now).1;
    if a.Refused? {
      RefusalKeeps(p, cfg, s, args, now);
    } else {
      var t := MatchedState(s, sid, NormalizeCode(args.code), a.proof, a.enrollment, now);
      MatchedKeeps(p, cfg, s, sid, args, now);
      MatchMay(p, cfg, s, sid, args, now);
      if cfg.requireApproval {
        ParkKeeps(p, cfg, t, sid, a.enrollment, now);
      } else {
        FinishKeeps(p, cfg, t, sid, s.window.value.id, a.enrollment, outcome);
      }
    }
  }

  /** Without a match there is no enrollment. */
  lemma {:induction false} NeverStored(p: Primitives, cfg: Config, log: seq<Entry>, sid: nat)
    requires History(p, cfg, log) && !MatchedIn(log, sid)
    ensures forall x :: x in log && x.Stored? ==> x.sid != sid
  {
    if log != [] {
      var before := log[..|log| - 1];
      assert !MatchedIn(before, sid);
      NeverStored(p, cfg, before, sid);
      assert log == before + [log[|log| - 1]];
    }
  }

  lemma ResolveHistory(p: Primitives, cfg: Config, s: State, approved: bool)
    requires Waiting(s) && History(p, cfg, s.log) && Resolved(s, approved).1
    ensures History(p, cfg, Resolved(s, approved).0.log)
  {
    var sid := s.pending.value;
    HistoryAppend(p, cfg, s.log, Answered(sid, approved));
    HistoryAppend(p, cfg, s.log + [Answered(sid, approved)], Settled(sid));
    assert s.log + [Answered(sid, approved)] + [Settled(sid)] == s.log + [Answered(sid, approved), Settled(sid)];
  }

  lemma SettledWaiting(s: State, t: State, sid: nat, approved: bool)
    requires Waiting(s) && s.pending == Some(sid) && sid in s.decisions && s.decisions[sid].Undecided?
    requires t.pending == s.pending && t.parked == s.parked && t.decisions == s.decisions[sid := Decided(approved)]
    requires forall x :: x in t.log <==> x in s.log || x == Answered(sid, approved) || x == Settled(sid)
    ensures Waiting(t)
  {
    forall i | i in t.decisions ensures MatchedIn(t.log, i) { assert MatchedIn(s.log, i); }
  }

  lemma ResolveWaiting(s: State, approved: bool)
    requires Waiting(s) && Resolved(s, approved).1
    ensures Waiting(Resolved(s, approved).0)
  {
    SettledWaiting(s, Resolved(s, approved).0, s.pending.value, approved);
  }

  lemma SameShape(cfg: Config, s: State, t: State)
    requires Shape(cfg, s) && t == s.(decisions := t.decisions)
    ensures Shape(cfg, t)
  {
    hide WrongCodes;
  }

  lemma ResolveShape(cfg: Config, s: State, approved: bool)
    requires Shape(cfg, s) && Resolved(s, approved).1
    ensures Shape(cfg, Resolved(s, approved).0)
  {
    hide WrongCodes;
    var sid := s.pending.value;
    ShapeAppend(cfg, s, Answered(sid, approved));
    ShapeAppend(cfg, s.(log := s.log + [Answered(sid, approved)]), Settled(sid));
    assert s.log + [Answered(sid, approved)] + [Settled(sid)] == s.log + [Answered(sid, approved), Settled(sid)];
    SameShape(cfg, s.(log := s.log + [Answered(sid, approved), Settled(sid)]), Resolved(s, approved).0);
    hide Shape;
  }

  lemma ResolveLinked(cfg: Config, s: State, approved: bool)
    requires Linked(cfg, s) && Resolved(s, approved).1
    ensures Linked(cfg, Resolved(s, approved).0)
  {
    var sid := s.pending.value;
    TiedAppend(cfg, s, Answered(sid, approved));
    TiedAppend(cfg, s.(log := s.log + [Answered(sid, approved)]), Settled(sid));
    assert s.log + [Answered(sid, approved)] + [Settled(sid)] == s.log + [Answered(sid, approved), Settled(sid)];
  }

  lemma ResolveKeeps(p: Primitives, cfg: Config, s: State, approved: bool)
    requires Inv(p, cfg, s)
    ensures Inv(p, cfg, Resolved(s, approved).0)
  {
    hide History, Linked, Waiting, Shape, CompletionsClose, Follow;
    if Resolved(s, approved).1 {
      ResolveHistory(p, cfg, s, approved);
      ResolveWaiting(s, approved);
      ResolveShape(cfg, s, approved);
      ResolveLinked(cfg, s, approved);
    }
  }

  lemma TimerWaiting(s: State, sid: nat)
    requires Waiting(s) && sid in s.parked
    ensures Waiting(TimedOutState(s, sid))
  {
    hide MatchedIn;
  }

  lemma TimerTied(cfg: Config, s: State, sid: nat)
    requires Tied(cfg, s) && sid in s.parked
    ensures Tied(cfg, TimedOutState(s, sid))
  {
    var t := TimedOutState(s, sid);
    forall i | i in t.parked ensures Announced(t.log, i, t.parked[i]) { assert Announced(s.log, i, s.parked[i]); }
  }

  lemma TimerKeeps(p: Primitives, cfg: Config, s: State, sid: nat)
    requires Inv(p, cfg, s) && sid in s.parked
    ensures Inv(p, cfg, TimedOutState(s, sid))
  {
    hide History, Tied, Waiting, Reported, WrongCodes, CompletionsClose, Follow, OpenToMatch;
    TimerWaiting(s, sid);
    TimerTied(cfg, s, sid);
    TimerReported(s, sid);
  }

  lemma TimerReported(s: State, sid: nat)
    requires Reported(s) && sid in s.parked
    ensures Reported(TimedOutState(s, sid))
  {
  }

  lemma RestKeeps(p: Primitives, cfg: Config, s: State, sid: nat)
    requires Inv(p, cfg, s) && (sid in s.decisions ==> !s.decisions[sid].Undecided?)
    ensures Inv(p, cfg, s.(parked := s.parked - {sid}))
  {
    hide History, WrongCodes, CompletionsClose, Follow, MatchedIn, OpenToMatch;
    var t := s.(parked := s.parked - {sid});
    forall i | i in t.parked ensures Announced(t.log, i, t.parked[i]) { assert Announced(s.log, i, s.parked[i]); }
  }

  /** Giving up is timing out, leaving and noting it. */
  lemma AbandonKeeps(p: Primitives, cfg: Config, s: State, sid: nat)
    requires Inv(p, cfg, s) && sid in s.parked
    ensures Inv(p, cfg, AbandonedState(s, sid))
  {
    hide Inv, Shape, Waiting, Tied, History, Reported, Follow, OpenToMatch;
    var t := TimedOutState(s, sid);
    TimerKeeps(p, cfg, s, sid);
    RestKeeps(p, cfg, t, sid);
    var u := t.(parked := t.parked - {sid});
    assert u.parked == s.parked - {sid};
    LeavingKeeps(p, cfg, u, sid);
  }

  lemma LeavingKeeps(p: Primitives, cfg: Config, u: State, sid: nat)
    requires Inv(p, cfg, u)
    ensures Inv(p, cfg, u.(log := u.log + [Abandoned(sid)]))
  {
    hide Shape, Waiting, Tied, History, CompletionsClose, Follow, OpenToMatch;
    NoteKeeps(p, cfg, u, Abandoned(sid));
  }

  lemma ResumeMay(cfg: Config, s: State, sid: nat)
    requires Linked(cfg, s) && Waiting(s) && sid in s.parked && s.decisions[sid] == Decided(true)
    ensures MayFinish(cfg, s.(parked := s.parked - {sid}), sid, s.parked[sid].window, s.parked[sid].enrollment)
  {
    var me := s.parked[sid];
    assert Announced(s.log, sid, me);
    var x :| x in s.log && MatchOf(x, sid, me.window, me.enrollment);
  }

  lemma ResumeKeeps(p: Primitives, cfg: Config, s: State, sid: nat, outcome: StoreOutcome)
    requires Inv(p, cfg, s) && CanResume(s, sid)
    ensures Inv(p, cfg, Resumed(s, sid, outcome).0)
  {
    var me := s.parked[sid];
    var rest := s.(parked := s.parked - {sid});
    RestKeeps(p, cfg, s, sid);
    if me.timedOut {
      CloseKeeps(p, cfg, rest, "approval_timeout");
    } else if !s.decisions[sid].approved {
      CloseKeeps(p, cfg, rest, "denied");
    } else {
      ResumeMay(cfg, s, sid);
      FinishKeeps(p, cfg, rest, sid, me.window, me.enrollment, outcome);
    }
    hide Finished, Waiting, Tied, History, Shape, CompletionsClose, Closed, MayFinish, OpenToMatch;
  }

  lemma ExpireKeeps(p: Primitives, cfg: Config, s: State, now: real)
    requires Inv(p, cfg, s) && ExpiryDue(s, now)
    ensures Inv(p, cfg, Expired(s))
  {
    var woken := s.(expiry := s.expiry.(sleeping := false));
    WokenBase(p, cfg, s);
    if s.phase == Open { CloseKeeps(p, cfg, woken, "expired"); }
    hide Waiting, Tied, History, CompletionsClose, Closed, WrongCodes, Follow;
  }

  lemma WokenBase(p: Primitives, cfg: Config, s: State)
    requires Inv(p, cfg, s) && s.expiry.Task?
    ensures Base(p, cfg, s.(expiry := s.expiry.(sleeping := false)))
  {
    hide History, CompletionsClose, MatchedIn, Announced;
  }

  lemma StepKeeps(p: Primitives, cfg: Config, s: State, t: Timed)
    requires Configured(cfg) && Inv(p, cfg, s) && Enabled(cfg, s, t)
    ensures Inv(p, cfg, Step(p, cfg, s, t))
  {
    match t.action
    case Begin(windowS, code) => BeginKeeps(p, cfg, s, windowS, code, t.at);
    case Cancel(reason) => CloseKeeps(p, cfg, s, reason);
    case Submit(sid, args, outcome) => SubmitKeeps(p, cfg, s, sid, args, t.at, outcome);
    case Resolve(approved) => ResolveKeeps(p, cfg, s, approved);
    case ApprovalTimer(sid) => TimerKeeps(p, cfg, s, sid);
    case Resume(sid, outcome) => ResumeKeeps(p, cfg, s, sid, outcome);
    case Abandon(sid) => AbandonKeeps(p, cfg, s, sid);
    case Expire => ExpireKeeps(p, cfg, s, t.at);
    case Shutdown => CloseKeeps(p, cfg, s, "shutdown");
  }

  /** Every state of every run satisfies the invariants. */
  lemma {:induction false} RunKeeps(p: Primitives, cfg: Config, s: State, run: seq<Timed>, last: State)
    requires Configured(cfg) && Inv(p, cfg, s) && Runs(p, cfg, s, run, last)
    ensures Inv(p, cfg, last)
    decreases |run|
  {
    hide Inv;
    if run != [] {
      StepKeeps(p, cfg, s, run[0]);
      RunKeeps(p, cfg, Step(p, cfg, s, run[0]), run[1..], last);
    }
  }
}
