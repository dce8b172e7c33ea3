/** An honest phone pairs with the service, and its calls are let in from then on. */
module ServiceHonest {
  import opened Prelude
  import opened Crypto
  import opened Auth
  import opened Unicode
  import opened Store
  import opened PairingCode
  import Base64Url
  import Pairing
  import PairingProofs
  import PairingHonest
  import Admission
  import Middleware
  import Exchange
  import opened Service
  import opened ServiceTheorems

  // ---- An honest phone pairs ----

  /** A window opened in an idle service, for a code from the generator. */
  lemma Opens(p: Primitives, cfg: Config, s: State, code: string, now: real, wall: int) returns (a: Action, next: State)
    requires Pairing.Configured(cfg.pairing) && s.pairing.phase == Pairing.Idle && OverAlphabet(code)
    ensures a == Pair(Pairing.Timed(Pairing.Begin(None, code), now), wall)
    ensures Enabled(cfg, s, a) && next == Step(p, cfg, s, a)
    ensures next == s.(pairing := next.pairing) && next.pairing.phase == Pairing.Open
    ensures next.pairing.window.Some? && now < next.pairing.window.value.deadline
    ensures Pairing.HashCode(p, NormalizeCode(code)) == next.pairing.window.value.codeHash
    ensures next.pairing.decisions == s.pairing.decisions && next.pairing.parked == s.pairing.parked
    ensures |next.pairing.log| == |s.pairing.log| + 1 && next.pairing.log[..|s.pairing.log|] == s.pairing.log
    ensures next.pairing.log[|s.pairing.log|].WindowOpened?
  {
    FixedPoints(code);
    a := Pair(Pairing.Timed(Pairing.Begin(None, code), now), wall);
    next := Step(p, cfg, s, a);
    var pairing := Pairing.Step(p, cfg.pairing, s.pairing, a.t);
    assert pairing.log == s.pairing.log + [pairing.log[|s.pairing.log|]];
    hide NormalizeCode, Pairing.HashCode;
  }

  /** A pairing step that stores nothing leaves the rest of the service alone. */
  lemma QuietStep(p: Primitives, cfg: Config, s: State, t: Pairing.Timed, wall: int)
    requires Pairing.Enabled(cfg.pairing, s.pairing, t)
    requires PairingHonest.Unstored(s.pairing.log, Pairing.Step(p, cfg.pairing, s.pairing, t).log)
    ensures Step(p, cfg, s, Pair(t, wall)) == s.(pairing := Pairing.Step(p, cfg.pairing, s.pairing, t))
  {
    hide Pairing.Step, Pairing.Enabled;
  }

  /** The phone's device is active, under its own key unless another one with its identifier was listed before. */
  predicate Listed(p: Primitives, before: Db, after: Db, seed: Bytes)
  {
    var d := DeviceIdFor(p, p.publicKey(seed));
    && Admission.Active(after.devices, d)
    && after.devices[d].pubkey == if d in before.devices then before.devices[d].pubkey else p.publicKey(seed)
  }

  /** What an honest pairing ends with. */
  ghost predicate PairedUp(p: Primitives, s: State, last: State, sid: nat, seed: Bytes, name: UText, wall: int)
  {
    var e := PairingHonest.HonestEnrollment(p, seed, name);
    var n := |last.pairing.log|;
    && last.pairing.phase == Pairing.Idle
    && n > 0 && last.pairing.log[n - 1].Stored?
    && last.pairing.log[n - 1].sid == sid && last.pairing.log[n - 1].enrollment == e
    && Listed(p, s.admission.db, last.admission.db, seed)
    && RowOf(s.admission.db, last.admission.db, e, wall)
    && last.admission.log == s.admission.log + [Admission.Paired(e.deviceId)]
  }

  /** A pairing step that stores one device, as its last entry, enrolls it. */
  lemma OneEnrolled(p: Primitives, cfg: Config, s: State, next: Pairing.State, wall: int)
    requires var n := |next.log|;
             && n > |s.pairing.log| && next.log[n - 1].Stored?
             && forall k :: |s.pairing.log| <= k < n - 1 ==> !next.log[k].Stored?
    ensures var last := Paired(p, cfg, s, next, wall);
            && last.pairing == next
            && last.admission == Admission.Step(p, cfg.admission, s.admission,
                EnrollOf(next.log[|next.log| - 1].enrollment, wall))
  {
    hide Admission.Step;
  }

  /** A pairing step that ends idle with one stored device, as its last entry. */
  predicate StoresLast(s: Pairing.State, next: Pairing.State, sid: nat, e: Pairing.Enrollment)
  {
    var n := |next.log|;
    && next.phase == Pairing.Idle && n > |s.log| && next.log[n - 1].Stored?
    && (forall k :: |s.log| <= k < n - 1 ==> !next.log[k].Stored?)
    && next.log[n - 1].sid == sid && next.log[n - 1].enrollment == e
  }

  lemma RowsDerived(p: Primitives, cfg: Config, s: State, at: int)
    requires Inv(p, cfg, s, at)
    ensures Admission.KeysDerived(p, s.admission.db.devices)
  {
    hide PairingProofs.Inv, Sourced, KeysEnrolled, Admission.NoncesAreHistory, Admission.LiveDistinct,
         Admission.DevicesAreHistory,
         Admission.HandlersRemember, Admission.VisitorsAdmitted, Admission.AdmissionsSound, PairingProofs.History,
         Admission.KeysDerived;
  }

  lemma PairedWith(
      p: Primitives, cfg: Config, s: State, next: Pairing.State, wall: int, sid: nat, seed: Bytes, name: UText)
    requires Admission.KeysDerived(p, s.admission.db.devices) && Encodable(CleanName(name))
    requires StoresLast(s.pairing, next, sid, PairingHonest.HonestEnrollment(p, seed, name))
    ensures PairedUp(p, s, Paired(p, cfg, s, next, wall), sid, seed, name, wall)
  {
    hide Encodable, CleanName, DeviceIdFor, Admission.Step, Admission.KeysDerived, Paired;
    OneEnrolled(p, cfg, s, next, wall);
    Enrolls(p, cfg.admission, s.admission, PairingHonest.HonestEnrollment(p, seed, name), wall);
  }

  lemma StoringStep(
      p: Primitives, cfg: Config, s: State, t: Pairing.Timed, wall: int, at: int, sid: nat, seed: Bytes, name: UText)
    requires Inv(p, cfg, s, at) && Pairing.Enabled(cfg.pairing, s.pairing, t) && Encodable(CleanName(name))
    requires StoresLast(s.pairing, Pairing.Step(p, cfg.pairing, s.pairing, t), sid,
              PairingHonest.HonestEnrollment(p, seed, name))
    ensures PairedUp(p, s, Step(p, cfg, s, Pair(t, wall)), sid, seed, name, wall)
  {
    hide Pairing.Step, Pairing.Enabled, Inv, Encodable, CleanName, Paired, PairedUp, StoresLast,
         PairingHonest.HonestEnrollment;
    RowsDerived(p, cfg, s, at);
    PairedWith(p, cfg, s, Pairing.Step(p, cfg.pairing, s.pairing, t), wall, sid, seed, name);
  }

  lemma UnusedStays(s: Pairing.State, next: Pairing.State, sid: nat)
    requires Pairing.Unused(s, sid) && next.decisions == s.decisions && next.parked == s.parked
    requires |next.log| == |s.log| + 1 && next.log[..|s.log|] == s.log && !next.log[|s.log|].Matched?
    ensures Pairing.Unused(next, sid)
  {
    assert next.log == s.log + [next.log[|s.log|]];
  }

  lemma RunOfTwo(p: Primitives, cfg: Config, s: State, a: Action, b: Action, wall: int)
    requires Enabled(cfg, s, a) && Enabled(cfg, Step(p, cfg, s, a), b) && Wall(a) == Wall(b) == wall
    ensures Runs(p, cfg, s, wall, [a, b], Step(p, cfg, Step(p, cfg, s, a), b), wall)
  {
    hide Step, Enabled;
    assert [a, b][1..] == [b] && [b][1..] == [];
    var mid, last := Step(p, cfg, s, a), Step(p, cfg, Step(p, cfg, s, a), b);
    assert Runs(p, cfg, last, wall, [], last, wall);
    assert Runs(p, cfg, mid, wall, [b], last, wall);
  }

  lemma {:induction false} RunsJoin(
      p: Primitives, cfg: Config, s: State, from: int, run: seq<Action>, mid: State, at: int, more: seq<Action>,
      last: State, end: int)
    requires Runs(p, cfg, s, from, run, mid, at) && Runs(p, cfg, mid, at, more, last, end)
    ensures Runs(p, cfg, s, from, run + more, last, end)
    decreases |run|
  {
    hide Step, Enabled;
    if run == [] {
      assert run + more == more;
    } else {
      assert (run + more)[0] == run[0] && (run + more)[1..] == run[1..] + more;
      RunsJoin(p, cfg, Step(p, cfg, s, run[0]), Wall(run[0]), run[1..], mid, at, more, last, end);
    }
  }

  /** The last step of a run tells a submission that its device is enrolled. */
  ghost predicate EndsAnswered(
      p: Primitives, cfg: Config, run: seq<Action>, last: State, before: State, final: Pairing.Timed, wall: int,
      e: Pairing.Enrollment)
  {
    && run != [] && run[|run| - 1] == Pair(final, wall)
    && Pairing.Enabled(cfg.pairing, before.pairing, final) && last == Step(p, cfg, before, Pair(final, wall))
    && Pairing.AnswerOf(p, cfg.pairing, before.pairing, final) == Some(Ok(e))
  }

  lemma AnsweredNow(
      p: Primitives, cfg: Config, run: seq<Action>, before: State, final: Pairing.Timed, wall: int,
      e: Pairing.Enrollment)
    requires run != [] && run[|run| - 1] == Pair(final, wall) && Pairing.Enabled(cfg.pairing, before.pairing, final)
    requires Pairing.AnswerOf(p, cfg.pairing, before.pairing, final) == Some(Ok(e))
    ensures EndsAnswered(p, cfg, run, Step(p, cfg, before, Pair(final, wall)), before, final, wall, e)
  {
    hide Pairing.AnswerOf, Pairing.Step;
  }

  lemma AnsweredLast(
      p: Primitives, cfg: Config, x: Action, more: seq<Action>, last: State, before: State, final: Pairing.Timed,
      wall: int, e: Pairing.Enrollment)
    requires EndsAnswered(p, cfg, more, last, before, final, wall, e)
    ensures EndsAnswered(p, cfg, [x] + more, last, before, final, wall, e)
  {
    hide Pairing.AnswerOf, Step;
  }

  /**
   In an idle service at any time, an honest phone pairs with any spelling of the shown code: opening,
   submission and, where it is asked for, one yes from the operator leave its device active.
   */
  lemma HonestPairs(
      p: Primitives, cfg: Config, serverSeed: Bytes, seed: Bytes, code: string, typed: string, name: UText,
      s: State, sid: nat, now: real, wall: int)
      returns (run: seq<Action>, last: State, before: State, final: Pairing.Timed)
    requires Sound(p) && Pairing.Configured(cfg.pairing) && PairingHonest.OwnServer(p, cfg.pairing, serverSeed)
    requires Reached(p, cfg, s, wall) && s.pairing.phase == Pairing.Idle && Pairing.Unused(s.pairing, sid)
    requires Generated(code) && NormalizeCode(typed) == code && Encodable(CleanName(name))
    ensures Runs(p, cfg, s, wall, run, last, wall) && Reached(p, cfg, last, wall)
    ensures PairedUp(p, s, last, sid, seed, name, wall)
    ensures EndsAnswered(p, cfg, run, last, before, final, wall, PairingHonest.HonestEnrollment(p, seed, name))
  {
    hide EndsAnswered, Step, Enabled, Sound, NormalizeCode, Pairing.HashCode, Pairing.Unused, Pairing.Step,
         Pairing.Enabled,
         Encodable, CleanName,
         Inv, Reached, PairedUp, PairingHonest.OwnServer, PairingHonest.ApprovedFor, PairingHonest.Unstored,
             PairingHonest.HonestEnrollment;
    ReachedInv(p, cfg, s, wall);
    assert NormalizeCode(code) == code by { FixedPoints(code); }
    var begin, a := Opens(p, cfg, s, code, now, wall);
    StepKeeps(p, cfg, s, begin, wall);
    UnusedStays(s.pairing, a.pairing, sid);
    if cfg.pairing.requireApproval {
      var submit, yes := PairingHonest.HonestApproved(p, cfg.pairing, serverSeed, seed, typed, name, a.pairing, sid,
          now);
      var more;
      more, last, before, final := ApprovedPairs(p, cfg, a, submit, yes, seed, name, sid, now, wall);
      run := [begin] + more;
      RunsAfter(p, cfg, s, begin, more, last, wall);
      AnsweredLast(p, cfg, begin, more, last, before, final, wall, PairingHonest.HonestEnrollment(p, seed, name));
    } else {
      NothingPending(p, cfg, a, wall);
      var submit := PairingHonest.SavedAtOnce(p, cfg.pairing, serverSeed, seed, typed, name, a.pairing, sid, now);
      var b := Pair(submit, wall);
      assert Enabled(cfg, a, b) by { PairEnabled(cfg, a, submit, wall); }
      StoringStep(p, cfg, a, submit, wall, wall, sid, seed, name);
      last := Step(p, cfg, a, b);
      run := [begin, b];
      RunOfTwo(p, cfg, s, begin, b, wall);
      before, final := a, submit;
      AnsweredNow(p, cfg, run, a, submit, wall, PairingHonest.HonestEnrollment(p, seed, name));
    }
    SameTables(p, s, a, last, sid, seed, name, wall);
    ReachedOn(p, cfg, s, wall, run, last, wall);
  }

  lemma PairEnabled(cfg: Config, s: State, t: Pairing.Timed, wall: int)
    requires Pairing.Enabled(cfg.pairing, s.pairing, t)
    ensures Enabled(cfg, s, Pair(t, wall))
  {
  }

  lemma NothingPending(p: Primitives, cfg: Config, s: State, at: int)
    requires Inv(p, cfg, s, at) && s.pairing.phase == Pairing.Open
    ensures s.pairing.pending.None?
  {
  }

  lemma SameTables(p: Primitives, s: State, a: State, last: State, sid: nat, seed: Bytes, name: UText, wall: int)
    requires PairedUp(p, a, last, sid, seed, name, wall) && a.admission == s.admission
    ensures PairedUp(p, s, last, sid, seed, name, wall)
  {
  }

  lemma RunsAfter(p: Primitives, cfg: Config, s: State, a: Action, more: seq<Action>, last: State, wall: int)
    requires Enabled(cfg, s, a) && Wall(a) == wall && Runs(p, cfg, Step(p, cfg, s, a), wall, more, last, wall)
    ensures Runs(p, cfg, s, wall, [a] + more, last, wall)
  {
    assert ([a] + more)[1..] == more;
  }

  lemma ApprovedPairs(
      p: Primitives, cfg: Config, a: State, submit: Pairing.Timed, yes: Pairing.Timed, seed: Bytes, name: UText,
      sid: nat, now: real, wall: int)
      returns (run: seq<Action>, last: State, before: State, final: Pairing.Timed)
    requires Pairing.Configured(cfg.pairing) && Inv(p, cfg, a, wall) && Encodable(CleanName(name))
    requires a.pairing.window.Some?
    requires PairingHonest.HonestSteps(p, cfg.pairing, a.pairing, sid, PairingHonest.HonestEnrollment(p, seed, name),
              submit, yes)
    ensures Runs(p, cfg, a, wall, run, last, wall) && PairedUp(p, a, last, sid, seed, name, wall)
    ensures EndsAnswered(p, cfg, run, last, before, final, wall, PairingHonest.HonestEnrollment(p, seed, name))
  {
    hide EndsAnswered, Step, Enabled, Pairing.Step, Pairing.Enabled, Encodable, CleanName, Inv, PairedUp,
         PairingHonest.ApprovedFor,
         PairingHonest.Unstored;
    var e := PairingHonest.HonestEnrollment(p, seed, name);
    var x, y := Pair(submit, wall), Pair(yes, wall);
    PairEnabled(cfg, a, submit, wall);
    QuietStep(p, cfg, a, submit, wall);
    var b := Step(p, cfg, a, x);
    StepKeeps(p, cfg, a, x, wall);
    PairEnabled(cfg, b, yes, wall);
    QuietStep(p, cfg, b, yes, wall);
    var c := Step(p, cfg, b, y);
    StepKeeps(p, cfg, b, y, wall);
    PairingHonest.SavedAfterApproval(p, cfg.pairing, c.pairing, sid, a.pairing.window.value.id, e, a.pairing.parked,
        now);
    var go := Pairing.Timed(Pairing.Resume(sid, Pairing.Saved), now);
    PairEnabled(cfg, c, go, wall);
    StoringStep(p, cfg, c, go, wall, wall, sid, seed, name);
    last := Step(p, cfg, c, Pair(go, wall));
    run := [x] + [y, Pair(go, wall)];
    RunOfTwo(p, cfg, b, y, Pair(go, wall), wall);
    RunsAfter(p, cfg, a, x, [y, Pair(go, wall)], last, wall);
    SameTables(p, a, c, last, sid, seed, name, wall);
    before, final := c, go;
    AnsweredNow(p, cfg, [y, Pair(go, wall)], c, go, wall, e);
    AnsweredLast(p, cfg, x, [y, Pair(go, wall)], last, c, go, wall, e);
  }

  /** It ends in a state that the service reaches. */
  lemma ReachedOn(p: Primitives, cfg: Config, s: State, at: int, run: seq<Action>, last: State, end: int)
    requires Reached(p, cfg, s, at) && Runs(p, cfg, s, at, run, last, end)
    ensures Reached(p, cfg, last, end)
  {
    var from, before :| Runs(p, cfg, Initial, from, before, s, at);
    RunsJoin(p, cfg, Initial, from, before, s, at, run, last, end);
  }

  // ---- And is let in from then on ----

  /** Nothing that was logged in between revoked or deleted the device. */
  predicate Unharmed(before: seq<Admission.Entry>, after: seq<Admission.Entry>, d: string)
  {
    before <= after
    && forall k :: |before| <= k < |after| ==> after[k] != Admission.Revoked(d) && after[k] != Admission.Deleted(d)
  }

  predicate ListedAs(
      db: Db, d: string, pubkey: Bytes) { Admission.Active(db.devices, d) && db.devices[d].pubkey == pubkey }

  lemma AdmissionGrows(p: Primitives, cfg: Admission.Config, a: Admission.State, u: Admission.Timed)
    ensures a.log <= Admission.Step(p, cfg, a, u).log
  {
    hide Admission.Gate, Admission.BodyChecks;
  }

  lemma ServiceGrows(p: Primitives, cfg: Config, s: State, a: Action)
    requires Enabled(cfg, s, a)
    ensures s.admission.log <= Step(p, cfg, s, a).admission.log
  {
    match a
    case Serve(u) => AdmissionGrows(p, cfg.admission, s.admission, u);
    case Pair(t, wall) =>
      var pairing := Pairing.Step(p, cfg.pairing, s.pairing, t);
      var i := NewStored(pairing.log, |s.pairing.log|);
      if i.Some? { AdmissionGrows(p, cfg.admission, s.admission, EnrollOf(pairing.log[i.value].enrollment, wall)); }
      hide Pairing.Step, Admission.Step;
  }

  lemma {:induction false} RunGrows(
      p: Primitives, cfg: Config, s: State, from: int, run: seq<Action>, last: State, end: int)
    requires Runs(p, cfg, s, from, run, last, end)
    ensures s.admission.log <= last.admission.log
    decreases |run|
  {
    hide Step, Enabled;
    if run != [] {
      ServiceGrows(p, cfg, s, run[0]);
      RunGrows(p, cfg, Step(p, cfg, s, run[0]), Wall(run[0]), run[1..], last, end);
    }
  }

  /** Without a revocation or deletion, what the history trusts it goes on trusting. */
  lemma TrustStays(before: seq<Admission.Entry>, after: seq<Admission.Entry>, d: string)
    requires Unharmed(before, after, d) && Admission.Trusted(before, d, |before|)
    ensures Admission.Trusted(after, d, |after|)
  {
    var since :| 0 <= since < |before| && Admission.TrustedSince(before, d, since, |before|);
    assert Admission.TrustedSince(after, d, since, |after|);
  }

  lemma ActiveIsTrusted(p: Primitives, cfg: Config, s: State, at: int, d: string)
    requires Inv(p, cfg, s, at)
    ensures Admission.Active(s.admission.db.devices, d) <==> Admission.Trusted(s.admission.log, d, |s.admission.log|)
  {
    hide PairingProofs.Inv, Sourced, AllSourced, KeysEnrolled, Admission.NoncesAreHistory, Admission.LiveDistinct,
         Admission.HandlersRemember, Admission.VisitorsAdmitted, Admission.AdmissionsSound, Admission.KeysDerived;
  }

  /** No step gives a listed device another key. */
  lemma KeyKept(p: Primitives, cfg: Admission.Config, a: Admission.State, u: Admission.Timed, d: string)
    requires d in a.db.devices && d in Admission.Step(p, cfg, a, u).db.devices
    ensures Admission.Step(p, cfg, a, u).db.devices[d].pubkey == a.db.devices[d].pubkey
  {
    if !u.action.Enroll? { ServeRows(p, cfg, a, u); }
    hide Admission.Gate, Admission.BodyChecks, KeyTaken, Encodable;
  }

  lemma StepKeepsKey(p: Primitives, cfg: Config, s: State, a: Action, d: string)
    requires Enabled(cfg, s, a) && d in s.admission.db.devices && d in Step(p, cfg, s, a).admission.db.devices
    ensures Step(p, cfg, s, a).admission.db.devices[d].pubkey == s.admission.db.devices[d].pubkey
  {
    match a
    case Serve(u) => KeyKept(p, cfg.admission, s.admission, u, d);
    case Pair(t, wall) =>
      var pairing := Pairing.Step(p, cfg.pairing, s.pairing, t);
      var i := NewStored(pairing.log, |s.pairing.log|);
      if i.Some? { KeyKept(p, cfg.admission, s.admission, EnrollOf(pairing.log[i.value].enrollment, wall), d); }
      hide Pairing.Step, Admission.Step;
  }

  /** A device stays listed under its key through every run that neither revokes nor deletes it. */
  lemma {:induction false} StaysListed(
      p: Primitives, cfg: Config, s: State, from: int, run: seq<Action>, later: State, end: int, d: string,
      pubkey: Bytes)
    requires Pairing.Configured(cfg.pairing) && Inv(p, cfg, s, from) && Runs(p, cfg, s, from, run, later, end)
    requires ListedAs(s.admission.db, d, pubkey) && Unharmed(s.admission.log, later.admission.log, d)
    ensures Inv(p, cfg, later, end) && ListedAs(later.admission.db, d, pubkey)
    decreases |run|
  {
    hide Inv, Step, Enabled, Admission.Trusted;
    if run != [] {
      var mid := Step(p, cfg, s, run[0]);
      StepKeeps(p, cfg, s, run[0], from);
      ServiceGrows(p, cfg, s, run[0]);
      RunGrows(p, cfg, mid, Wall(run[0]), run[1..], later, end);
      assert Unharmed(s.admission.log, mid.admission.log, d) && Unharmed(mid.admission.log, later.admission.log, d);
      ActiveIsTrusted(p, cfg, s, from, d);
      TrustStays(s.admission.log, mid.admission.log, d);
      ActiveIsTrusted(p, cfg, mid, Wall(run[0]), d);
      StepKeepsKey(p, cfg, s, run[0], d);
      StaysListed(p, cfg, mid, Wall(run[0]), run[1..], later, end, d, pubkey);
    }
  }

  /**
   From the pairing on, through restarts and whatever else happens but a revocation or deletion of the
   device, an honest call is admitted exactly when it is short enough, within its rate, fresh and new.
   */
  lemma PairedCallsDecided(
      p: Primitives, cfg: Config, s: State, last: State, at: int, sid: nat, seed: Bytes, name: UText,
      run: seq<Action>, later: State, end: int, pc: Exchange.LinkedPC, c: Exchange.Call, limiterOk: bool, now: int)
    requires Sound(p) && Pairing.Configured(cfg.pairing) && Reached(p, cfg, last, at)
    requires PairedUp(p, s, last, sid, seed, name, at)
    requires var d := DeviceIdFor(p, p.publicKey(seed));
             && (d in s.admission.db.devices ==> s.admission.db.devices[d].pubkey == p.publicKey(seed))
             && Unharmed(last.admission.log, later.admission.log, d)
    requires Runs(p, cfg, last, at, run, later, end)
    requires Exchange.Honest(p, cfg.admission, seed, pc, c) && (c.httpMethod == "POST" || c.bodyText == [])
    ensures Exchange.SignedHeaders(p, seed, pc, c).Some?
    ensures Middleware.Decision(
              p, cfg.admission, later.admission.db, Exchange.Arrived(p, seed, pc, c), limiterOk, now,
                  Exchange.SentBody(c)).Ok?
            <==> |Exchange.SentBody(c)| <= cfg.admission.maxBody && limiterOk
                 && Fresh(c.timestamp, now, cfg.admission.skew)
                 && (pc.deviceId, Base64Url.Encode(c.nonce)) !in later.admission.db.nonces
  {
    hide Inv, Runs, Reached, Exchange.SignedHeaders, Middleware.Decision, Fresh, DeviceIdFor, Unharmed;
    var d := DeviceIdFor(p, p.publicKey(seed));
    ReachedInv(p, cfg, last, at);
    StaysListed(p, cfg, last, at, run, later, end, d, p.publicKey(seed));
    RowsDerived(p, cfg, later, end);
    Exchange.HonestCallDecided(p, cfg.admission, later.admission.db, seed, pc, c, limiterOk, now);
    hide Sound;
  }
}
