/**
 A submission that goes on acts on whatever window is open by then: one that was approved is stored although
 its own window was cancelled, and closes the window that was opened since.
 */
module PairingForeign {
  import opened Prelude
  import opened PairingCode
  import opened Crypto
  import opened Unicode
  import opened Pairing
  import opened PairingProofs
  import opened PairingTheorems
  import opened PairingHonest

  /** The submission goes on and ends a window that is not its own. */
  predicate EndsForeign(cfg: Config, s: State, sid: nat, outcome: StoreOutcome)
    requires CanResume(s, sid)
  {
    var next := Resumed(s, sid, outcome).0;
    s.window.Some? && s.window.value.id != s.parked[sid].window && next.window.None?
  }

  /** A submission on its way finds another window open than its own, and does not fail. */
  predicate MeetsForeign(s: State, sid: nat, outcome: StoreOutcome)
    requires CanResume(s, sid)
  {
    && s.phase != Idle && s.window.Some? && s.parked[sid].window + 1 != s.windows
    && (s.parked[sid].timedOut || s.decisions[sid] == Decided(false) || outcome.Saved?)
  }

  /** It ends a foreign window exactly when its own is not the latest one and one is open. */
  lemma EndsForeignExactly(p: Primitives, cfg: Config, s: State, sid: nat, outcome: StoreOutcome)
    requires Configured(cfg) && Reachable(p, cfg, s) && CanResume(s, sid)
    ensures EndsForeign(cfg, s, sid, outcome) <==> MeetsForeign(s, sid, outcome)
  {
    ReachableInv(p, cfg, s);
    hide Waiting, Linked, History, Reported, WrongCodes;
  }

  /** The window that an approved submission leaves behind when it is cancelled and another one opened. */
  lemma CancelAndReopen(
      p: Primitives, cfg: Config, s: State, sid: nat, window: nat, e: Enrollment, code: string, now: real)
    requires Configured(cfg) && ApprovedFor(s, sid, window, e, map[]) && s.windows == window + 1
    ensures var cancelled := Step(p, cfg, s, Timed(Cancel("cancelled"), now));
            var t := Timed(Begin(None, code), now);
            && Enabled(cfg, cancelled, t)
            && var reopened := Step(p, cfg, cancelled, t);
            && reopened.phase == Open && reopened.pending.None? && reopened.window.Some?
                && reopened.window.value.id == window + 1
            && sid in reopened.parked && reopened.parked[sid].window == window
            && reopened.parked[sid].enrollment == e && !reopened.parked[sid].timedOut
            && sid in reopened.decisions && reopened.decisions[sid] == Decided(true)
  {
    hide HashCode;
  }

  lemma CancelEnabled(cfg: Config, s: State, t: Timed)
    requires t.action.Cancel?
    ensures Enabled(cfg, s, t)
  {
  }

  lemma SavedForeign(p: Primitives, cfg: Config, s: State, t: Timed, window: nat, e: Enrollment)
    requires t.action == Resume(0, Saved) && s.phase == Open && s.pending.None?
    requires s.window.Some? && s.window.value.id == window + 1
    requires 0 in s.parked && s.parked[0].window == window && s.parked[0].enrollment == e && !s.parked[0].timedOut
    requires 0 in s.decisions && s.decisions[0] == Decided(true) && Encodable(e.name)
    ensures Enabled(cfg, s, t) && EndsForeign(cfg, s, 0, Saved)
    ensures Step(p, cfg, s, t).phase == Idle && Step(p, cfg, s, t).log == s.log + [Stored(0, window, e)]
  {
  }

  /** A run in which a device is stored for a cancelled window, and the one opened since is closed for it. */
  lemma ForeignEnded(p: Primitives, cfg: Config, serverSeed: Bytes, seed: Bytes, name: UText, code: string)
      returns (s: State, t: Timed)
    requires Sound(p) && Configured(cfg) && OwnServer(p, cfg, serverSeed) && cfg.requireApproval
    requires Encodable(CleanName(name))
    ensures Reachable(p, cfg, s) && t.action == Resume(0, Saved) && Enabled(cfg, s, t)
    ensures EndsForeign(cfg, s, 0, Saved) && s.phase == Open && s.window.value.id == 1
    ensures Step(p, cfg, s, t).phase == Idle
    ensures Step(p, cfg, s, t).log == s.log + [Stored(0, 0, HonestEnrollment(p, seed, name))]
  {
    assert Encodable(HonestEnrollment(p, seed, name).name);
    hide Step, Enabled, NormalizeCode, HashCode, Reachable, Unused, OwnServer, Sound, CleanName, ApprovedFor, Unstored,
         HonestEnrollment, Encodable;
    var first := "K7M2QX4B";
    assert Reachable(p, cfg, Initial) by { StartReachable(p, cfg); }
    var begin := FirstWindow(p, cfg, first);
    ReachStep(p, cfg, Initial, begin);
    var a := Step(p, cfg, Initial, begin);
    NoneMatched(a, 0);
    var submit, yes := HonestApproved(p, cfg, serverSeed, seed, first, name, a, 0, 0.0);
    ReachStep(p, cfg, a, submit);
    ReachStep(p, cfg, Step(p, cfg, a, submit), yes);
    var c := Step(p, cfg, Step(p, cfg, a, submit), yes);
    var e := HonestEnrollment(p, seed, name);
    CancelAndReopen(p, cfg, c, 0, a.window.value.id, e, code, 0.0);
    var cancel := Timed(Cancel("cancelled"), 0.0);
    assert Enabled(cfg, c, cancel) by { CancelEnabled(cfg, c, cancel); }
    ReachStep(p, cfg, c, cancel);
    var d := Step(p, cfg, c, cancel);
    var again := Timed(Begin(None, code), 0.0);
    ReachStep(p, cfg, d, again);
    s := Step(p, cfg, d, again);
    t := Timed(Resume(0, Saved), 0.0);
    SavedForeign(p, cfg, s, t, a.window.value.id, e);
  }

  ghost predicate SomeEndsForeign(p: Primitives, cfg: Config)
  {
    exists s, sid, outcome ::
      Reachable(p, cfg, s) && Enabled(cfg, s, Timed(Resume(sid, outcome), 0.0)) && EndsForeign(cfg, s, sid, outcome)
  }

  /** Some run ends a window through a submission of another one exactly when approval is required. */
  lemma ForeignExactly(p: Primitives, cfg: Config, serverSeed: Bytes)
    requires Sound(p) && Configured(cfg) && OwnServer(p, cfg, serverSeed)
    ensures SomeEndsForeign(p, cfg) <==> cfg.requireApproval
  {
    hide Reachable, OwnServer, Sound, EndsForeign;
    if cfg.requireApproval {
      assert Encodable(CleanName([])) by { EmptyNamed(); }
      var s, t := ForeignEnded(p, cfg, serverSeed, serverSeed, [], "K7M2QX4B");
      assert Enabled(cfg, s, Timed(Resume(0, Saved), 0.0));
      assert SomeEndsForeign(p, cfg);
    } else if SomeEndsForeign(p, cfg) {
      var s, sid, outcome :|
        Reachable(p, cfg, s) && Enabled(cfg, s, Timed(Resume(sid, outcome), 0.0)) && EndsForeign(cfg, s, sid, outcome);
      NobodyWaits(p, cfg, s);
    }
  }

  lemma EmptyNamed()
    ensures Encodable(CleanName([]))
  {
    assert Words([], []) == [];
  }

  /** Without approval nobody waits. */
  lemma NobodyWaits(p: Primitives, cfg: Config, s: State)
    requires Configured(cfg) && Reachable(p, cfg, s) && !cfg.requireApproval
    ensures s.parked == map[]
  {
    ReachableInv(p, cfg, s);
    hide Waiting, Shape, History, Reported;
    assert s.parked.Keys == {};
  }
}
