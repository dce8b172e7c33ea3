/**
 The service with its rate limiter. One table of buckets serves source addresses and devices; a signed
 request asks for its device's bucket once the device is known not to be revoked. A restart empties the table.
 */
module Throttle {
  import opened Prelude
  import opened Crypto
  import opened Store
  import Auth
  import RateLimit
  import RateBudget
  import Pairing
  import Admission
  import Middleware
  import Service

  datatype State = State(service: Service.State, buckets: RateLimit.Table)

  const Initial := State(Service.Initial, map[])

  /** The wall clock and the limiter's. */
  datatype Clock = Clock(wall: int, mono: real)

  /** A signed request up to its wait for the body, the bucket of an address, or any other step of the service. */
  datatype Action =
    | Signed(rid: nat, request: Admission.Incoming, left: RateLimit.Table)
    | Peer(address: string, left: RateLimit.Table)
    | Other(a: Service.Action)

  datatype Timed = Timed(action: Action, at: Clock)

  function DeviceKey(d: string): string { "dev:" + d }

  function DeviceOf(r: Admission.Incoming): string
  {
    match Auth.ParseAuthHeaders(r.headers) case Ok(h) => h.deviceId case Err(_) => ""
  }

  /** The limiter's turn in a step, if it has one. */
  function TurnOf(cfg: Service.Config, s: State, t: Timed): Option<RateLimit.Turn>
  {
    match t.action
    case Signed(_, request, left) =>
      if Middleware.AsksLimiter(cfg.admission, s.service.admission.db, request, t.at.wall)
      then Some(RateLimit.Turn(DeviceKey(DeviceOf(request)), 1.0, t.at.mono, left)) else None
    case Peer(address, left) => Some(RateLimit.Turn("ip:" + address, 1.0, t.at.mono, left))
    case Other(_) => None
  }

  /** What the service does in a step; a request that does not ask the limiter is not refused by it. */
  function ServiceAction(cfg: Service.Config, l: RateLimit.Limits, s: State, t: Timed): Option<Service.Action>
  {
    match t.action
    case Signed(rid, request, _) =>
      var turn := TurnOf(cfg, s, t);
      var limiterOk := turn.None? || RateLimit.Admits(l, turn.value);
      Some(Service.Serve(Admission.Timed(Admission.Arrive(rid, request, limiterOk), t.at.wall)))
    case Peer(_, _) => None
    case Other(a) => Some(a)
  }

  predicate Restarts(t: Timed) { t.action.Other? && t.action.a.Serve? && t.action.a.u.action.Restart? }

  predicate Enabled(cfg: Service.Config, l: RateLimit.Limits, s: State, t: Timed)
  {
    && (match TurnOf(cfg, s, t) case Some(turn) => RateLimit.Legal(l, s.buckets, turn) case None => true)
    && match t.action
       case Signed(rid, _, _) => rid !in s.service.admission.handlers
       case Peer(_, _) => true
       case Other(a) =>
         Service.Enabled(cfg, s.service, a) && Service.Wall(a) == t.at.wall && !(a.Serve? && a.u.action.Arrive?)
  }

  function Step(p: Primitives, cfg: Service.Config, l: RateLimit.Limits, s: State, t: Timed): State
    requires Enabled(cfg, l, s, t)
  {
    var turn, action := TurnOf(cfg, s, t), ServiceAction(cfg, l, s, t);
    State(
      if action.Some? then Service.Step(p, cfg, s.service, action.value) else s.service,
      if turn.Some? then RateLimit.After(l, turn.value) else if Restarts(t) then map[] else s.buckets)
  }

  predicate Runs(
    p: Primitives, cfg: Service.Config, l: RateLimit.Limits, s: State, from: Clock, run: seq<Timed>, last: State,
    end: Clock)
    decreases |run|
  {
    if run == [] then last == s && from.wall <= end.wall && from.mono <= end.mono
    else
      && Enabled(cfg, l, s, run[0]) && from.wall <= run[0].at.wall && from.mono <= run[0].at.mono
      && Runs(p, cfg, l, Step(p, cfg, l, s, run[0]), run[0].at, run[1..], last, end)
  }

  // ---- Every lookup is used once ----

  /** A lookup leads to one admission at most. */
  ghost predicate LookupsOnce(a: Admission.State)
  {
    && (forall rid :: rid in a.handlers ==> a.handlers[rid].lookup < |a.log|)
    && (forall i :: 0 <= i < |a.log| && a.log[i].Admitted? ==> a.log[i].lookup < i)
    && (forall i, j :: 0 <= i < j < |a.log| && a.log[i].Admitted? && a.log[j].Admitted? ==>
        a.log[i].lookup != a.log[j].lookup)
    && (forall rid, i :: rid in a.handlers && a.handlers[rid].Reading? && 0 <= i < |a.log| && a.log[i].Admitted? ==>
          a.log[i].lookup != a.handlers[rid].lookup)
    && (forall x, y | x in a.handlers && y in a.handlers && x != y ::
          a.handlers[x].Reading? && a.handlers[y].Reading? ==> a.handlers[x].lookup != a.handlers[y].lookup)
  }

  lemma ArriveOnce(cfg: Admission.Config, a: Admission.State, rid: nat, r: Admission.Incoming, limiterOk: bool, at: int)
    requires LookupsOnce(a) && rid !in a.handlers
    ensures LookupsOnce(Admission.ArriveStep(cfg, a, rid, r, limiterOk, at))
  {
    hide Admission.Gate;
  }

  lemma CompleteOnce(p: Primitives, cfg: Admission.Config, a: Admission.State, rid: nat, body: Bytes)
    requires LookupsOnce(a) && rid in a.handlers && a.handlers[rid].Reading?
    ensures LookupsOnce(Admission.CompleteStep(p, cfg, a, rid, a.handlers[rid].f, a.handlers[rid].lookup, body))
  {
    hide Admission.Verdict, Admission.Spend;
  }

  /** Handlers leave, and the log grows by other entries. */
  lemma LeavingOnce(a: Admission.State, next: Admission.State)
    requires LookupsOnce(a) && a.log <= next.log && forall k :: |a.log| <= k < |next.log| ==> !next.log[k].Admitted?
    requires forall rid :: rid in next.handlers ==> rid in a.handlers && next.handlers[rid] == a.handlers[rid]
    ensures LookupsOnce(next)
  {
  }

  lemma OtherOnce(p: Primitives, cfg: Admission.Config, a: Admission.State, u: Admission.Timed)
    requires LookupsOnce(a) && !u.action.Arrive? && !u.action.Complete?
    ensures LookupsOnce(Admission.Step(p, cfg, a, u))
  {
    hide LookupsOnce;
    LeavingOnce(a, Admission.Step(p, cfg, a, u));
  }

  lemma AdmissionOnce(p: Primitives, cfg: Admission.Config, a: Admission.State, u: Admission.Timed)
    requires LookupsOnce(a)
    ensures LookupsOnce(Admission.Step(p, cfg, a, u))
  {
    hide LookupsOnce, Admission.ArriveStep, Admission.CompleteStep;
    match u.action
    case Arrive(rid, r, limiterOk) => if rid !in a.handlers { ArriveOnce(cfg, a, rid, r, limiterOk, u.at); }
    case Complete(rid, body) => if rid in a.handlers && a.handlers[rid].Reading? { CompleteOnce(p, cfg, a, rid, body); }
    case _ => OtherOnce(p, cfg, a, u);
  }

  lemma ServiceOnce(p: Primitives, cfg: Service.Config, s: Service.State, a: Service.Action)
    requires LookupsOnce(s.admission) && Service.Enabled(cfg, s, a)
    ensures LookupsOnce(Service.Step(p, cfg, s, a).admission)
  {
    hide LookupsOnce, Admission.Step, Pairing.Step;
    match a
    case Serve(u) => AdmissionOnce(p, cfg.admission, s.admission, u);
    case Pair(t, wall) =>
      var pairing := Pairing.Step(p, cfg.pairing, s.pairing, t);
      var i := Service.NewStored(pairing.log, |s.pairing.log|);
      if i.Some? {
        AdmissionOnce(p, cfg.admission, s.admission, Service.EnrollOf(pairing.log[i.value].enrollment, wall));
      }
  }

  // ---- Steps ----

  ghost predicate Inv(p: Primitives, cfg: Service.Config, l: RateLimit.Limits, s: State, at: Clock)
  {
    Service.Inv(p, cfg, s.service, at.wall) && RateBudget.Valid(l, s.buckets, at.mono)
        && LookupsOnce(s.service.admission)
  }

  lemma BucketsKeep(
      p: Primitives, cfg: Service.Config, l: RateLimit.Limits, s: State, t: Timed, from: real)
    requires RateLimit.Configured(l) && RateBudget.Valid(l, s.buckets, from) && from <= t.at.mono
              && Enabled(cfg, l, s, t)
    ensures RateBudget.Valid(l, Step(p, cfg, l, s, t).buckets, t.at.mono)
  {
    hide Service.Step, RateLimit.After, RateLimit.Legal, Service.Enabled, Middleware.AsksLimiter;
    var turn := TurnOf(cfg, s, t);
    if turn.Some? {
      RateBudget.EvictionVisible(l, s.buckets, turn.value, "");
      RateBudget.CallVisible(l, turn.value, "");
    }
  }

  lemma StepKeeps(p: Primitives, cfg: Service.Config, l: RateLimit.Limits, s: State, t: Timed, from: Clock)
    requires Pairing.Configured(cfg.pairing) && RateLimit.Configured(l) && Inv(p, cfg, l, s, from)
    requires Enabled(cfg, l, s, t) && from.wall <= t.at.wall && from.mono <= t.at.mono
    ensures Inv(p, cfg, l, Step(p, cfg, l, s, t), t.at)
  {
    BucketsKeep(p, cfg, l, s, t, from.mono);
    hide Service.Inv, Service.Step, RateBudget.Valid, LookupsOnce, RateLimit.Legal, RateLimit.After;
    var action := ServiceAction(cfg, l, s, t);
    if action.Some? {
      Service.StepKeeps(p, cfg, s.service, action.value, from.wall);
      ServiceOnce(p, cfg, s.service, action.value);
    } else {
      LaterInv(p, cfg, s.service, from.wall, t.at.wall);
    }
  }

  lemma LaterInv(p: Primitives, cfg: Service.Config, s: Service.State, at: int, later: int)
    requires Service.Inv(p, cfg, s, at) && at <= later
    ensures Service.Inv(p, cfg, s, later)
  {
    Service.LaterInv(p, cfg.admission, s.admission, at, later);
    hide Admission.Inv, Service.Sourced, Service.AllSourced, Service.KeysEnrolled;
  }

  lemma {:induction false} RunKeeps(
      p: Primitives, cfg: Service.Config, l: RateLimit.Limits, s: State, from: Clock, run: seq<Timed>, last: State,
      end: Clock)
    requires Pairing.Configured(cfg.pairing) && RateLimit.Configured(l) && Inv(p, cfg, l, s, from)
    requires Runs(p, cfg, l, s, from, run, last, end)
    ensures Inv(p, cfg, l, last, end)
    decreases |run|
  {
    if run == [] {
      LaterInv(p, cfg, s.service, from.wall, end.wall);
    } else {
      StepKeeps(p, cfg, l, s, run[0], from);
      hide Inv, Step, Enabled;
      RunKeeps(p, cfg, l, Step(p, cfg, l, s, run[0]), run[0].at, run[1..], last, end);
    }
  }

  lemma InitialHolds(p: Primitives, cfg: Service.Config, l: RateLimit.Limits, from: Clock)
    ensures Inv(p, cfg, l, Initial, from)
  {
    Service.InitialHolds(p, cfg, from.wall);
    hide Service.Inv;
  }

  // ---- A lookup costs a token ----

  predicate LooksUp(before: seq<Admission.Entry>, after: seq<Admission.Entry>, d: string)
  {
    |before| < |after| && after[|before|] == Admission.LookedUp(d)
  }

  /** The limiter admitted the device's turn in this step. */
  predicate Pays(cfg: Service.Config, l: RateLimit.Limits, s: State, t: Timed, d: string)
  {
    var turn := TurnOf(cfg, s, t);
    turn.Some? && turn.value.key == DeviceKey(d) && RateLimit.Admits(l, turn.value)
  }

  lemma AdmissionLooksUp(p: Primitives, cfg: Admission.Config, a: Admission.State, u: Admission.Timed)
    ensures var log := Admission.Step(p, cfg, a, u).log;
            && a.log <= log && |log| <= |a.log| + 1
            && (!u.action.Arrive? && |log| > |a.log| ==> !log[|a.log|].LookedUp?)
  {
    hide Admission.Gate, Admission.Verdict;
  }

  lemma ServiceLooksUp(p: Primitives, cfg: Service.Config, s: Service.State, a: Service.Action)
    requires Service.Enabled(cfg, s, a)
    ensures var log := Service.Step(p, cfg, s, a).admission.log;
            && s.admission.log <= log && |log| <= |s.admission.log| + 1
            && (!(a.Serve? && a.u.action.Arrive?) && |log| > |s.admission.log| ==> !log[|s.admission.log|].LookedUp?)
  {
    hide Admission.Step, Pairing.Step;
    match a
    case Serve(u) => AdmissionLooksUp(p, cfg.admission, s.admission, u);
    case Pair(t, wall) =>
      var pairing := Pairing.Step(p, cfg.pairing, s.pairing, t);
      var i := Service.NewStored(pairing.log, |s.pairing.log|);
      if i.Some? {
        AdmissionLooksUp(p, cfg.admission, s.admission, Service.EnrollOf(pairing.log[i.value].enrollment, wall));
      }
  }

  /** A request that passes the gate has asked the limiter for its device. */
  lemma GateAsks(p: Primitives, cfg: Admission.Config, db: Db, r: Admission.Incoming, limiterOk: bool, now: int)
    requires Admission.KeysDerived(p, db.devices) && Admission.Gate(cfg, db, r, limiterOk, now).Ok?
    ensures Middleware.AsksLimiter(cfg, db, r, now) && limiterOk
    ensures Admission.Gate(cfg, db, r, limiterOk, now).value.device.deviceId == DeviceOf(r)
  {
    hide DeviceIdFor, Auth.ParseAuthHeaders;
  }

  lemma SignedLooksUp(p: Primitives, cfg: Service.Config, l: RateLimit.Limits, s: State, t: Timed, d: string)
    requires t.action.Signed? && Enabled(cfg, l, s, t)
    requires Admission.KeysDerived(p, s.service.admission.db.devices)
    requires LooksUp(s.service.admission.log, Step(p, cfg, l, s, t).service.admission.log, d)
    ensures Pays(cfg, l, s, t, d)
  {
    hide Admission.Gate, Middleware.AsksLimiter, RateLimit.Admits, RateLimit.Legal, RateLimit.After,
         Admission.KeysDerived;
    var a := s.service.admission;
    var limiterOk := ServiceAction(cfg, l, s, t).value.u.action.limiterOk;
    assert Admission.Gate(cfg.admission, a.db, t.action.request, limiterOk, t.at.wall).Ok?;
    GateAsks(p, cfg.admission, a.db, t.action.request, limiterOk, t.at.wall);
  }

  /** The log grows by one entry at most, and a lookup of a device is paid for by its bucket. */
  lemma StepLooksUp(p: Primitives, cfg: Service.Config, l: RateLimit.Limits, s: State, t: Timed, at: Clock, d: string)
    requires Inv(p, cfg, l, s, at) && Enabled(cfg, l, s, t)
    ensures var before, after := s.service.admission.log, Step(p, cfg, l, s, t).service.admission.log;
            && before <= after && |after| <= |before| + 1
            && (LooksUp(before, after, d) ==> Pays(cfg, l, s, t, d))
  {
    Derived(p, cfg, s.service, at.wall);
    hide Service.Inv, Service.Step, RateBudget.Valid, LookupsOnce, Admission.KeysDerived, RateLimit.Legal,
         RateLimit.After, Pays;
    var action := ServiceAction(cfg, l, s, t);
    if action.Some? { ServiceLooksUp(p, cfg, s.service, action.value); }
    if t.action.Signed? && LooksUp(s.service.admission.log, Step(p, cfg, l, s, t).service.admission.log, d) {
      SignedLooksUp(p, cfg, l, s, t, d);
    }
  }

  lemma Derived(p: Primitives, cfg: Service.Config, s: Service.State, at: int)
    requires Service.Inv(p, cfg, s, at)
    ensures Admission.KeysDerived(p, s.admission.db.devices)
  {
    hide Service.Sourced, Service.AllSourced, Service.KeysEnrolled, Admission.NoncesAreHistory, Admission.LiveDistinct,
         Admission.DevicesAreHistory, Admission.HandlersRemember, Admission.VisitorsAdmitted, Admission.AdmissionsSound,
         Admission.KeysDerived;
  }

  // ---- The budget of a device ----

  /** A full bucket that a step hands to a device: its bucket is evicted by force, or all buckets go with a restart. */
  function BonusOf(cfg: Service.Config, l: RateLimit.Limits, s: State, t: Timed, d: string): nat
  {
    match TurnOf(cfg, s, t)
    case Some(turn) => if RateBudget.Forced(l, s.buckets, turn, DeviceKey(d)) then 1 else 0
    case None => if Restarts(t) then 1 else 0
  }

  function Bonuses(p: Primitives, cfg: Service.Config, l: RateLimit.Limits, s: State, run: seq<Timed>, d: string): nat
    decreases |run|
  {
    if run == [] || !Enabled(cfg, l, s, run[0]) then 0
    else BonusOf(cfg, l, s, run[0], d) + Bonuses(p, cfg, l, Step(p, cfg, l, s, run[0]), run[1..], d)
  }

  function Left(l: RateLimit.Limits, s: State, d: string, at: Clock): real
  {
    RateBudget.Available(l, s.buckets, DeviceKey(d), at.mono)
  }

  function Paid(before: seq<Admission.Entry>, after: seq<Admission.Entry>, d: string): real
  {
    if LooksUp(before, after, d) then 1.0 else 0.0
  }

  lemma TurnBalance(
      p: Primitives, cfg: Service.Config, l: RateLimit.Limits, s: State, t: Timed, from: Clock, d: string)
    requires RateLimit.Configured(l) && RateBudget.Valid(l, s.buckets, from.mono) && Enabled(cfg, l, s, t)
    requires from.mono <= t.at.mono && TurnOf(cfg, s, t).Some?
    ensures (if Pays(cfg, l, s, t, d) then 1.0 else 0.0) + Left(l, Step(p, cfg, l, s, t), d, t.at)
         <= Left(l, s, d, from) + RateLimit.Earned(l, t.at.mono - from.mono)
          + RateBudget.Gifts(l, BonusOf(cfg, l, s, t, d))
  {
    hide Service.Step, Service.Enabled, Middleware.AsksLimiter, RateLimit.Earned, RateBudget.Available, RateLimit.Legal,
         RateLimit.After, RateLimit.Admits, RateBudget.Forced, RateBudget.Valid;
    var turn := TurnOf(cfg, s, t).value;
    RateBudget.CallBalance(l, s.buckets, turn, DeviceKey(d), from.mono);
    RateBudget.GiftsSplit(l, 1, 0);
    hide RateBudget.Gifts;
  }

  lemma QuietBalance(
      p: Primitives, cfg: Service.Config, l: RateLimit.Limits, s: State, t: Timed, from: Clock, d: string)
    requires RateLimit.Configured(l) && RateBudget.Valid(l, s.buckets, from.mono) && Enabled(cfg, l, s, t)
    requires from.mono <= t.at.mono && TurnOf(cfg, s, t).None?
    ensures Left(l, Step(p, cfg, l, s, t), d, t.at)
         <= Left(l, s, d, from) + RateLimit.Earned(l, t.at.mono - from.mono)
          + RateBudget.Gifts(l, BonusOf(cfg, l, s, t, d))
  {
    hide Service.Step, Service.Enabled, Middleware.AsksLimiter, RateLimit.Earned, RateBudget.Valid, RateLimit.Refill;
    RateBudget.AvailableLater(l, s.buckets, DeviceKey(d), from.mono, t.at.mono);
    RateBudget.AvailableBounded(l, s.buckets, DeviceKey(d), from.mono);
    RateBudget.EarnedNonNegative(l, t.at.mono - from.mono);
    RateBudget.GiftsSplit(l, 1, 0);
    hide RateBudget.Gifts;
  }

  lemma StepBalance(
      p: Primitives, cfg: Service.Config, l: RateLimit.Limits, s: State, t: Timed, from: Clock, d: string)
    requires RateLimit.Configured(l) && Inv(p, cfg, l, s, from) && Enabled(cfg, l, s, t) && from.mono <= t.at.mono
    ensures Paid(s.service.admission.log, Step(p, cfg, l, s, t).service.admission.log, d)
          + Left(l, Step(p, cfg, l, s, t), d, t.at)
         <= Left(l, s, d, from) + RateLimit.Earned(l, t.at.mono - from.mono)
          + RateBudget.Gifts(l, BonusOf(cfg, l, s, t, d))
  {
    StepLooksUp(p, cfg, l, s, t, from, d);
    assert RateBudget.Valid(l, s.buckets, from.mono);
    hide Inv, Step, Enabled, Left, BonusOf, RateLimit.Earned, RateBudget.Gifts, RateBudget.Valid;
    if TurnOf(cfg, s, t).Some? { TurnBalance(p, cfg, l, s, t, from, d); }
        else { QuietBalance(p, cfg, l, s, t, from, d); }
    hide TurnOf;
  }

  /** The lookups of a device from a position on. */
  function LookupsFrom(log: seq<Admission.Entry>, d: string, from: nat): set<nat>
  {
    set k: nat | from <= k < |log| && log[k] == Admission.LookedUp(d)
  }

  lemma LookupsAdd(before: seq<Admission.Entry>, mid: seq<Admission.Entry>, after: seq<Admission.Entry>, d: string)
    requires before <= mid <= after && |mid| <= |before| + 1
    ensures |LookupsFrom(after, d, |before|)| as real == |LookupsFrom(after, d, |mid|)| as real + Paid(before, mid, d)
  {
    var rest := LookupsFrom(after, d, |mid|);
    if LooksUp(before, mid, d) {
      assert LookupsFrom(after, d, |before|) == rest + {|before|};
    } else {
      assert LookupsFrom(after, d, |before|) == rest;
    }
  }

  lemma {:induction false} RunGrows(
      p: Primitives, cfg: Service.Config, l: RateLimit.Limits, s: State, from: Clock, run: seq<Timed>, last: State,
      end: Clock)
    requires Pairing.Configured(cfg.pairing) && RateLimit.Configured(l) && Inv(p, cfg, l, s, from)
    requires Runs(p, cfg, l, s, from, run, last, end)
    ensures s.service.admission.log <= last.service.admission.log
    decreases |run|
  {
    hide Inv, Step, Enabled;
    if run != [] {
      StepKeeps(p, cfg, l, s, run[0], from);
      StepLooksUp(p, cfg, l, s, run[0], from, "");
      RunGrows(p, cfg, l, Step(p, cfg, l, s, run[0]), run[0].at, run[1..], last, end);
    }
  }

  /** Lookups and what is left never exceed what there was, the refill, and the full buckets handed out. */
  lemma {:induction false} LookupsBalance(
      p: Primitives, cfg: Service.Config, l: RateLimit.Limits, s: State, from: Clock, run: seq<Timed>, last: State,
      end: Clock,
      d: string)
    requires Pairing.Configured(cfg.pairing) && RateLimit.Configured(l) && Inv(p, cfg, l, s, from)
    requires Runs(p, cfg, l, s, from, run, last, end)
    ensures |LookupsFrom(last.service.admission.log, d, |s.service.admission.log|)| as real + Left(l, last, d, end)
         <= Left(l, s, d, from) + RateLimit.Earned(l, end.mono - from.mono)
          + RateBudget.Gifts(l, Bonuses(p, cfg, l, s, run, d))
    decreases |run|
  {
    hide Inv, Step, Enabled, Left, BonusOf, RateLimit.Earned, RateBudget.Gifts, LookupsFrom, Paid;
    if run == [] {
      NothingLooked(p, cfg, l, s, from, end, d);
    } else {
      var mid := Step(p, cfg, l, s, run[0]);
      StepKeeps(p, cfg, l, s, run[0], from);
      StepLooksUp(p, cfg, l, s, run[0], from, d);
      StepBalance(p, cfg, l, s, run[0], from, d);
      RunGrows(p, cfg, l, mid, run[0].at, run[1..], last, end);
      LookupsAdd(s.service.admission.log, mid.service.admission.log, last.service.admission.log, d);
      LookupsBalance(p, cfg, l, mid, run[0].at, run[1..], last, end, d);
      JoinTimes(cfg, l, s, run[0], from, end, d, Bonuses(p, cfg, l, mid, run[1..], d));
    }
  }

  lemma NothingLooked(
      p: Primitives, cfg: Service.Config, l: RateLimit.Limits, s: State, from: Clock, end: Clock, d: string)
    requires RateLimit.Configured(l) && Inv(p, cfg, l, s, from) && from.mono <= end.mono
    ensures LookupsFrom(s.service.admission.log, d, |s.service.admission.log|) == {}
    ensures Left(l, s, d, end) <= Left(l, s, d, from) + RateLimit.Earned(l, end.mono - from.mono)
    ensures RateBudget.Gifts(l, 0) == 0.0
  {
    hide LookupsOnce, Service.Inv, RateBudget.Valid, RateLimit.Earned, RateLimit.Refill;
    RateBudget.AvailableLater(l, s.buckets, DeviceKey(d), from.mono, end.mono);
    RateBudget.GiftsSplit(l, 0, 0);
  }

  lemma JoinTimes(
      cfg: Service.Config, l: RateLimit.Limits, s: State, t: Timed, from: Clock, end: Clock, d: string, more: nat)
    ensures RateLimit.Earned(l, t.at.mono - from.mono) + RateLimit.Earned(l, end.mono - t.at.mono)
         == RateLimit.Earned(l, end.mono - from.mono)
    ensures RateBudget.Gifts(l, BonusOf(cfg, l, s, t, d)) + RateBudget.Gifts(l, more)
         == RateBudget.Gifts(l, BonusOf(cfg, l, s, t, d) + more)
  {
    RateBudget.EarnedSplit(l, t.at.mono - from.mono, end.mono - t.at.mono);
    assert (t.at.mono - from.mono) + (end.mono - t.at.mono) == end.mono - from.mono;
    RateBudget.GiftsSplit(l, BonusOf(cfg, l, s, t, d), more);
    RateBudget.GiftsSplit(l, 1, 0);
    hide RateLimit.Earned, RateBudget.Gifts;
  }

  // ---- Admissions ----

  /** The admissions of a device whose request arrived from a position on. */
  function AdmissionsFrom(log: seq<Admission.Entry>, d: string, from: nat): set<nat>
  {
    set i: nat | i < |log| && log[i].Admitted? && log[i].deviceId == d && log[i].lookup >= from
  }

  lemma {:induction false} EachItsLookup(log: seq<Admission.Entry>, admissions: set<nat>, lookups: set<nat>)
    requires forall i :: i in admissions ==> i < |log| && log[i].Admitted? && log[i].lookup in lookups
    requires forall i, j :: i in admissions && j in admissions && i != j ==> log[i].lookup != log[j].lookup
    ensures |admissions| <= |lookups|
    decreases |admissions|
  {
    if admissions != {} {
      var i :| i in admissions;
      EachItsLookup(log, admissions - {i}, lookups - {log[i].lookup});
    }
  }

  lemma Apart(a: Admission.State)
    requires LookupsOnce(a)
    ensures forall i, j ::
              0 <= i < |a.log| && 0 <= j < |a.log| && a.log[i].Admitted? && a.log[j].Admitted? && i != j ==>
                a.log[i].lookup != a.log[j].lookup
  {
  }

  lemma AdmissionsBounded(
      p: Primitives, cfg: Service.Config, l: RateLimit.Limits, s: State, at: Clock, d: string, from: nat)
    requires Inv(p, cfg, l, s, at)
    ensures |AdmissionsFrom(s.service.admission.log, d, from)| <= |LookupsFrom(s.service.admission.log, d, from)|
  {
    var log := s.service.admission.log;
    var admissions, lookups := AdmissionsFrom(log, d, from), LookupsFrom(log, d, from);
    LookedUpFor(p, cfg, s.service, at.wall);
    Apart(s.service.admission);
    hide Inv, LookupsOnce, Service.Inv, RateBudget.Valid;
    EachItsLookup(log, admissions, lookups);
  }

  lemma LookedUpFor(p: Primitives, cfg: Service.Config, s: Service.State, at: int)
    requires Service.Inv(p, cfg, s, at)
    ensures var log := s.admission.log;
            forall i :: 0 <= i < |log| && log[i].Admitted? ==>
              log[i].lookup < i && log[log[i].lookup] == Admission.LookedUp(log[i].deviceId)
  {
    hide Service.Sourced, Service.AllSourced, Service.KeysEnrolled, Admission.NoncesAreHistory, Admission.LiveDistinct,
         Admission.DevicesAreHistory, Admission.HandlersRemember, Admission.VisitorsAdmitted, Admission.KeysDerived,
         Admission.Trusted;
  }

  ghost predicate Reached(p: Primitives, cfg: Service.Config, l: RateLimit.Limits, s: State, at: Clock)
  {
    exists from, run :: Runs(p, cfg, l, Initial, from, run, s, at)
  }

  /**
   Over any interval of any run of the service, the requests of one device that arrive in it and are
   admitted are at most a burst plus the refill of the interval, and a burst more for each forced
   eviction of the device's bucket and each restart.
   */
  lemma DeviceBudget(
      p: Primitives, cfg: Service.Config, l: RateLimit.Limits, s: State, from: Clock, run: seq<Timed>, last: State,
      end: Clock,
      d: string)
    requires Pairing.Configured(cfg.pairing) && RateLimit.Configured(l)
    requires Reached(p, cfg, l, s, from) && Runs(p, cfg, l, s, from, run, last, end)
    ensures |AdmissionsFrom(last.service.admission.log, d, |s.service.admission.log|)| as real
         <= (Bonuses(p, cfg, l, s, run, d) + 1) as real * l.burst + l.rate * (end.mono - from.mono)
  {
    hide Inv, Runs, Left, RateLimit.Earned, RateBudget.Gifts, AdmissionsFrom, LookupsFrom, Bonuses, Pairing.Configured;
    RateBudget.Spelled(l, Bonuses(p, cfg, l, s, run, d) + 1, end.mono - from.mono);
    var start, before :| Runs(p, cfg, l, Initial, start, before, s, from);
    InitialHolds(p, cfg, l, start);
    RunKeeps(p, cfg, l, Initial, start, before, s, from);
    RunKeeps(p, cfg, l, s, from, run, last, end);
    LookupsBalance(p, cfg, l, s, from, run, last, end, d);
    AdmissionsBounded(p, cfg, l, last, end, d, |s.service.admission.log|);
    LeftBounded(p, cfg, l, s, from, d);
    LeftBounded(p, cfg, l, last, end, d);
    RateBudget.GiftsSplit(l, 1, Bonuses(p, cfg, l, s, run, d));
    RateBudget.GiftsSplit(l, 1, 0);
  }

  lemma LeftBounded(p: Primitives, cfg: Service.Config, l: RateLimit.Limits, s: State, at: Clock, d: string)
    requires RateLimit.Configured(l) && Inv(p, cfg, l, s, at)
    ensures 0.0 <= Left(l, s, d, at) <= l.burst
  {
    RateBudget.AvailableBounded(l, s.buckets, DeviceKey(d), at.mono);
    hide Service.Inv, LookupsOnce, RateBudget.Valid, RateBudget.Available;
  }
}
