/** The timers alone bring every pairing window to its end, as long as the store works. */
module PairingDrain {
  import opened Prelude
  import opened Crypto
  import opened Unicode
  import opened Pairing
  import opened PairingProofs
  import opened PairingTheorems

  /** What a store that works does with a name: it raises for what it cannot hold, and for nothing else. */
  function Working(name: UText): StoreOutcome { if Encodable(name) then Saved else UpsertRaises }

  /** What happens without anybody at the PC or on the network, while the store works. */
  predicate TimerAction(s: State, a: Action)
  {
    || a.Expire? || a.ApprovalTimer?
    || (a.Resume? && a.sid in s.parked && a.outcome == Working(s.parked[a.sid].enrollment.name))
  }

  predicate TimerStep(cfg: Config, s: State, t: Timed, now: real)
  {
    TimerAction(s, t.action) && t.at >= now && Enabled(cfg, s, t)
  }

  /** A run of timer actions from `s` at `now`, at times that do not decrease, to `last` at `end`. */
  predicate TimerRun(p: Primitives, cfg: Config, s: State, now: real, run: seq<Timed>, last: State, end: real)
    decreases |run|
  {
    if run == [] then last == s && end == now
    else TimerStep(cfg, s, run[0], now) && TimerRun(p, cfg, Step(p, cfg, s, run[0]), run[0].at, run[1..], last, end)
  }

  function Sleepers(s: State): set<nat> { set sid | sid in s.parked && !s.parked[sid].timedOut }

  /** Submissions count twice until their timer has fired, the expiry task once while it sleeps. */
  function Weight(s: State): nat
  {
    |s.parked| + |Sleepers(s)| + if s.expiry.Task? && s.expiry.sleeping then 1 else 0
  }

  /** Approval is awaited, and nobody is left to see it or give up. */
  predicate Stranded(s: State) { s.phase == AwaitingApproval && s.parked == map[] }

  /**
   A waiting submission that ends the window when it goes on: all but those approved under a name that
   cannot be stored.
   */
  predicate Ends(s: State, sid: nat)
  {
    sid in s.parked
    && (s.parked[sid].timedOut || sid !in s.decisions || s.decisions[sid] != Decided(true)
        || Encodable(s.parked[sid].enrollment.name))
  }

  /** Approval is awaited, and whoever still waits may go on without ending it. */
  predicate Doomed(s: State) { s.phase == AwaitingApproval && forall sid :: sid in s.parked ==> !Ends(s, sid) }

  // ---- Every timer step makes progress ----

  lemma RestLighter(s: State, sid: nat)
    requires sid in s.parked
    ensures |s.parked - {sid}| == |s.parked| - 1
    ensures |Sleepers(s.(parked := s.parked - {sid}))| <= |Sleepers(s)|
  {
    assert s.parked == (s.parked - {sid})[sid := s.parked[sid]];
    SubsetSize(Sleepers(s.(parked := s.parked - {sid})), Sleepers(s));
  }

  lemma TimerLighter(s: State, sid: nat)
    requires sid in s.parked && !s.parked[sid].timedOut
    ensures |TimedOutState(s, sid).parked| == |s.parked|
    ensures |Sleepers(TimedOutState(s, sid))| < |Sleepers(s)|
  {
    var t := TimedOutState(s, sid);
    assert t.parked.Keys == s.parked.Keys;
    assert |t.parked.Keys| == |t.parked| && |s.parked.Keys| == |s.parked|;
    assert Sleepers(t) == Sleepers(s) - {sid};
  }

  lemma ResumeLeaves(s: State, sid: nat, outcome: StoreOutcome)
    requires CanResume(s, sid)
    ensures var t := Resumed(s, sid, outcome).0;
            t.parked == s.parked - {sid} && (t.expiry == s.expiry || t.expiry == NoTask)
  {
  }

  lemma StepLighter(p: Primitives, cfg: Config, s: State, t: Timed, now: real)
    requires TimerStep(cfg, s, t, now)
    ensures Weight(Step(p, cfg, s, t)) < Weight(s)
  {
    match t.action
    case Expire => assert Sleepers(Expired(s)) == Sleepers(s);
    case ApprovalTimer(sid) => TimerLighter(s, sid);
    case Resume(sid, outcome) =>
      ResumeLeaves(s, sid, outcome);
      RestLighter(s, sid);
      assert Sleepers(Resumed(s, sid, outcome).0) == Sleepers(s.(parked := s.parked - {sid}));
      hide Resumed;
  }

  // ---- Nothing but being done stops the timers ----

  /** Unless it is stranded, a pairing that is not over has a timer step ahead of it that does not strand it. */
  lemma StepAhead(p: Primitives, cfg: Config, s: State, now: real) returns (t: Timed)
    requires Inv(p, cfg, s) && s.phase != Idle && !Stranded(s)
    ensures TimerStep(cfg, s, t, now) && !Stranded(Step(p, cfg, s, t))
  {
    hide History, Reported, Linked, WrongCodes, Waiting;
    if s.phase == Open {
      return Timed(Expire, if now >= s.expiry.due then now else s.expiry.due);
    }
    var sid :| sid in s.parked;
    if s.parked[sid].timedOut { return Timed(Resume(sid, Working(s.parked[sid].enrollment.name)), now); }
    var due := s.parked[sid].since + cfg.approvalTimeoutS as real;
    t := Timed(ApprovalTimer(sid), if now >= due then now else due);
    assert sid in TimedOutState(s, sid).parked;
  }

  lemma StrandedStays(p: Primitives, cfg: Config, s: State, t: Timed, now: real)
    requires TimerStep(cfg, s, t, now) && Stranded(s)
    ensures Stranded(Step(p, cfg, s, t))
  {
  }

  /** The submission that ends the window stays until it does. */
  lemma DoomAverted(p: Primitives, cfg: Config, s: State, t: Timed, now: real)
    requires Waiting(s) && TimerStep(cfg, s, t, now) && !Doomed(s)
    ensures !Doomed(Step(p, cfg, s, t))
  {
    var next := Step(p, cfg, s, t);
    if s.phase == AwaitingApproval {
      var sid :| sid in s.parked && Ends(s, sid);
      if !(t.action.Resume? && t.action.sid == sid) && next.phase == AwaitingApproval {
        assert Ends(next, sid);
      }
    }
    hide Waiting;
  }

  lemma {:induction false} TimerRunKeeps(
      p: Primitives, cfg: Config, s: State, now: real, run: seq<Timed>, last: State, end: real)
    requires Configured(cfg) && Inv(p, cfg, s) && TimerRun(p, cfg, s, now, run, last, end)
    ensures Inv(p, cfg, last) && Weight(last) + |run| <= Weight(s)
    ensures (Stranded(s) ==> Stranded(last)) && (!Doomed(s) ==> !Doomed(last))
    decreases |run|
  {
    hide Shape, Waiting, Linked, History, Reported, Stranded, Doomed, Weight, Step;
    if run != [] {
      StepKeeps(p, cfg, s, run[0]);
      StepLighter(p, cfg, s, run[0], now);
      if Stranded(s) { StrandedStays(p, cfg, s, run[0], now); }
      if !Doomed(s) { DoomAverted(p, cfg, s, run[0], now); }
      TimerRunKeeps(p, cfg, Step(p, cfg, s, run[0]), run[0].at, run[1..], last, end);
    }
  }

  ghost predicate AtRest(cfg: Config, s: State, now: real) { forall t :: !TimerStep(cfg, s, t, now) }

  /**
   Timer runs have a bounded length, and one that no timer step can prolong has closed a window that was
   not doomed.
   */
  lemma TimersDrain(p: Primitives, cfg: Config, s: State, now: real, run: seq<Timed>, last: State, end: real)
    requires Configured(cfg) && Reachable(p, cfg, s)
    requires TimerRun(p, cfg, s, now, run, last, end)
    ensures |run| <= Weight(s)
    ensures !Doomed(s) && AtRest(cfg, last, end) ==> last.phase == Idle
  {
    ReachableInv(p, cfg, s);
    TimerRunKeeps(p, cfg, s, now, run, last, end);
    hide Inv, Weight;
    if !Doomed(s) && last.phase != Idle {
      assert !Stranded(last);
      var t := StepAhead(p, cfg, last, end);
    }
  }

  /** From a doomed state, everybody may go on and leave the window as it is. */
  lemma {:induction false} DoomedRun(p: Primitives, cfg: Config, s: State, now: real)
      returns (run: seq<Timed>, last: State, end: real)
    requires Configured(cfg) && Inv(p, cfg, s) && Doomed(s)
    ensures TimerRun(p, cfg, s, now, run, last, end) && AtRest(cfg, last, end) && last.phase != Idle
    decreases Weight(s)
  {
    hide Inv, Weight, Step, TimerStep;
    var t;
    if s.parked != map[] {
      var sid :| sid in s.parked;
      assert !Ends(s, sid);
      t := Timed(Resume(sid, UpsertRaises), now);
      DoomedGoesOn(p, cfg, s, sid, now);
    } else if s.expiry.Task? && s.expiry.sleeping {
      t := Timed(Expire, if now >= s.expiry.due then now else s.expiry.due);
      StrandedWakes(p, cfg, s, t, now);
    } else {
      NobodyLeft(cfg, s, now);
      return [], s, now;
    }
    TimerEnabled(cfg, s, t, now);
    StepKeeps(p, cfg, s, t);
    StepLighter(p, cfg, s, t, now);
    var rest;
    rest, last, end := DoomedRun(p, cfg, Step(p, cfg, s, t), t.at);
    run := [t] + rest;
    assert run[1..] == rest;
  }

  lemma DoomedGoesOn(p: Primitives, cfg: Config, s: State, sid: nat, now: real)
    requires Doomed(s) && sid in s.parked
    ensures var t := Timed(Resume(sid, UpsertRaises), now); TimerStep(cfg, s, t, now) && Doomed(Step(p, cfg, s, t))
  {
    assert !Ends(s, sid);
    var next := Step(p, cfg, s, Timed(Resume(sid, UpsertRaises), now));
    forall i | i in next.parked ensures !Ends(next, i) { assert !Ends(s, i); }
  }

  lemma StrandedWakes(p: Primitives, cfg: Config, s: State, t: Timed, now: real)
    requires Stranded(s) && s.expiry.Task? && s.expiry.sleeping
    requires t == Timed(Expire, if now >= s.expiry.due then now else s.expiry.due)
    ensures TimerStep(cfg, s, t, now) && Doomed(Step(p, cfg, s, t))
  {
  }

  lemma NobodyLeft(cfg: Config, s: State, now: real)
    requires s.parked == map[] && (s.expiry.Task? ==> !s.expiry.sleeping)
    ensures AtRest(cfg, s, now)
  {
    forall t ensures !TimerStep(cfg, s, t, now) {}
  }

  ghost predicate SureToDrain(p: Primitives, cfg: Config, s: State, now: real)
  {
    forall run, last, end :: TimerRun(p, cfg, s, now, run, last, end) && AtRest(cfg, last, end) ==> last.phase == Idle
  }

  /** The timers are sure to close the window exactly when it is not doomed. */
  lemma DrainsSurelyExactly(p: Primitives, cfg: Config, s: State, now: real)
    requires Configured(cfg) && Reachable(p, cfg, s)
    ensures SureToDrain(p, cfg, s, now) <==> !Doomed(s)
  {
    hide Reachable, Doomed, AtRest;
    if Doomed(s) {
      ReachableInv(p, cfg, s);
      var run, last, end := DoomedRun(p, cfg, s, now);
    } else {
      forall run, last, end | TimerRun(p, cfg, s, now, run, last, end)
          && AtRest(cfg, last, end) ensures last.phase == Idle {
        TimersDrain(p, cfg, s, now, run, last, end);
      }
    }
    hide Inv;
  }

  /** Some timer run closes the window. */
  lemma {:induction false} DrainingRun(p: Primitives, cfg: Config, s: State, now: real)
      returns (run: seq<Timed>, last: State, end: real)
    requires Configured(cfg) && Inv(p, cfg, s) && !Stranded(s)
    ensures TimerRun(p, cfg, s, now, run, last, end) && last.phase == Idle
    decreases Weight(s)
  {
    hide Inv, Stranded, Weight, Step, TimerStep;
    if s.phase == Idle { return [], s, now; }
    var t := StepAhead(p, cfg, s, now);
    assert Enabled(cfg, s, t) by { TimerEnabled(cfg, s, t, now); }
    StepKeeps(p, cfg, s, t);
    StepLighter(p, cfg, s, t, now);
    var rest;
    rest, last, end := DrainingRun(p, cfg, Step(p, cfg, s, t), t.at);
    run := [t] + rest;
    assert run[1..] == rest;
  }

  lemma TimerEnabled(cfg: Config, s: State, t: Timed, now: real)
    requires TimerStep(cfg, s, t, now)
    ensures Enabled(cfg, s, t)
  {
  }

  ghost predicate CanDrain(p: Primitives, cfg: Config, s: State, now: real)
  {
    exists run, last, end :: TimerRun(p, cfg, s, now, run, last, end) && last.phase == Idle
  }

  /** The timers can still close the window exactly when it is not stranded yet. */
  lemma DrainsExactly(p: Primitives, cfg: Config, s: State, now: real)
    requires Configured(cfg) && Reachable(p, cfg, s)
    ensures CanDrain(p, cfg, s, now) <==> !Stranded(s)
  {
    ReachableInv(p, cfg, s);
    if !Stranded(s) {
      var run, last, end := DrainingRun(p, cfg, s, now);
    } else if CanDrain(p, cfg, s, now) {
      var run, last, end :| TimerRun(p, cfg, s, now, run, last, end) && last.phase == Idle;
      TimerRunKeeps(p, cfg, s, now, run, last, end);
    }
    hide Inv;
  }

  // ---- Where doom comes from ----

  /** The pending submission is still waiting, unless finishing it failed or its handler was cancelled. */
  predicate Attended(s: State)
  {
    s.pending.Some? ==>
      s.pending.value in s.parked || Failed(s.pending.value) in s.log || Abandoned(s.pending.value) in s.log
  }

  lemma StepAttended(p: Primitives, cfg: Config, s: State, t: Timed)
    requires Attended(s) && Enabled(cfg, s, t)
    ensures Attended(Step(p, cfg, s, t))
  {
    match t.action
    case Submit(sid, args, outcome) =>
      if Attempted(p, cfg, s, args, t.at).1.Refused? { RefusalCases(p, cfg, s, args, t.at); }
      hide Attempted;
    case Abandon(sid) => assert AbandonedState(s, sid).log[|s.log|] == Abandoned(sid);
    case _ => {}
  }

  lemma {:induction false} RunAttended(p: Primitives, cfg: Config, s: State, run: seq<Timed>, last: State)
    requires Attended(s) && Runs(p, cfg, s, run, last)
    ensures Attended(last)
    decreases |run|
  {
    hide Attended, Step;
    if run != [] {
      StepAttended(p, cfg, s, run[0]);
      RunAttended(p, cfg, Step(p, cfg, s, run[0]), run[1..], last);
    }
  }

  /** With a store that works, handlers left alone and names that can be stored, no reachable state is doomed. */
  lemma NeverDoomed(p: Primitives, cfg: Config, s: State)
    requires Configured(cfg) && Reachable(p, cfg, s)
    requires forall sid :: Failed(sid) !in s.log && Abandoned(sid) !in s.log
    requires forall x :: x in s.log && x.Matched? ==> Encodable(x.enrollment.name)
    ensures !Doomed(s)
  {
    ReachableInv(p, cfg, s);
    var run :| Runs(p, cfg, Initial, run, s);
    RunAttended(p, cfg, Initial, run, s);
    if s.phase == AwaitingApproval {
      var sid := s.pending.value;
      assert Announced(s.log, sid, s.parked[sid]);
      assert Ends(s, sid);
    }
    hide History, Waiting, Reported, Runs;
  }
}
