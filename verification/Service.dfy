/**
 The whole service: the pairing window and the admission of requests over one store. A step of the
 pairing window that stores a device is the enrollment of the admission protocol. A restart loses the
 pairing window and the requests in flight and keeps the tables; `eras` are the pairing logs of earlier
 process lives. `sources` says for each pairing in the admission log which stored device it was.
 */
module Service {
  import opened Prelude
  import opened Crypto
  import opened Unicode
  import opened Store
  import Pairing
  import PairingProofs
  import PairingTheorems
  import PairingLog
  import Admission
  import AdmissionProofs

  datatype Config = Config(pairing: Pairing.Config, admission: Admission.Config)

  datatype Place = Place(era: nat, index: nat)

  datatype State = State(
    pairing: Pairing.State, eras: seq<seq<Pairing.Entry>>, admission: Admission.State, sources: map<nat, Place>)

  const Initial := State(Pairing.Initial, [], Admission.Initial, map[])

  /** A pairing step at a monotonic time and a wall-clock second, or any other step of the service. */
  datatype Action = Pair(t: Pairing.Timed, wall: int) | Serve(u: Admission.Timed)

  function Wall(a: Action): int { if a.Pair? then a.wall else a.u.at }

  predicate Enabled(cfg: Config, s: State, a: Action)
  {
    match a
    case Pair(t, _) => Pairing.Enabled(cfg.pairing, s.pairing, t)
    case Serve(u) => !u.action.Enroll?
  }

  /** The first stored device from a position on. */
  function NewStored(log: seq<Pairing.Entry>, from: nat): (r: Option<nat>)
    ensures r.Some? ==> from <= r.value < |log| && log[r.value].Stored?
    ensures r.None? ==> forall k :: from <= k < |log| ==> !log[k].Stored?
    decreases |log| - from
  {
    if from >= |log| then None else if log[from].Stored? then Some(from) else NewStored(log, from + 1)
  }

  function EnrollOf(e: Pairing.Enrollment, wall: int): Admission.Timed
  {
    Admission.Timed(Admission.Enroll(e.pubkey, e.name, e.platform), wall)
  }

  function Paired(p: Primitives, cfg: Config, s: State, next: Pairing.State, wall: int): State
  {
    match NewStored(next.log, |s.pairing.log|)
    case None => s.(pairing := next)
    case Some(i) =>
      State(next, s.eras,
            Admission.Step(p, cfg.admission, s.admission, EnrollOf(next.log[i].enrollment, wall)),
            s.sources[|s.admission.log| := Place(|s.eras|, i)])
  }

  function Served(p: Primitives, cfg: Config, s: State, u: Admission.Timed): State
  {
    var t := s.(admission := Admission.Step(p, cfg.admission, s.admission, u));
    if u.action.Restart? then t.(pairing := Pairing.Initial, eras := s.eras + [s.pairing.log]) else t
  }

  function Step(p: Primitives, cfg: Config, s: State, a: Action): State
    requires Enabled(cfg, s, a)
  {
    match a
    case Pair(t, wall) => Paired(p, cfg, s, Pairing.Step(p, cfg.pairing, s.pairing, t), wall)
    case Serve(u) => Served(p, cfg, s, u)
  }

  /** Runs from `s` to `last` on a wall clock that goes from `from` to `end` and not back. */
  predicate Runs(p: Primitives, cfg: Config, s: State, from: int, run: seq<Action>, last: State, end: int)
    decreases |run|
  {
    if run == [] then last == s && end == from
    else
      Enabled(cfg, s, run[0]) && from <= Wall(run[0])
      && Runs(p, cfg, Step(p, cfg, s, run[0]), Wall(run[0]), run[1..], last, end)
  }

  // ---- Where pairings and keys come from ----

  function Logs(s: State): seq<seq<Pairing.Entry>> { s.eras + [s.pairing.log] }

  predicate StoredAt(logs: seq<seq<Pairing.Entry>>, place: Place, d: string)
  {
    && place.era < |logs| && place.index < |logs[place.era]|
    && logs[place.era][place.index].Stored? && logs[place.era][place.index].enrollment.deviceId == d
  }

  predicate Earlier(a: Place, b: Place) { a.era < b.era || (a.era == b.era && a.index < b.index) }

  /** Each pairing in the admission log has its own stored device, in the same order. */
  ghost predicate Sourced(logs: seq<seq<Pairing.Entry>>, log: seq<Admission.Entry>, sources: map<nat, Place>)
  {
    && (forall k: nat :: k in sources <==> k < |log| && log[k].Paired?)
    && (forall k :: k in sources ==> StoredAt(logs, sources[k], log[k].deviceId))
    && (forall j, k :: j in sources && k in sources && j < k ==> Earlier(sources[j], sources[k]))
  }

  ghost predicate IsStored(logs: seq<seq<Pairing.Entry>>, place: Place)
  {
    place.era < |logs| && place.index < |logs[place.era]| && logs[place.era][place.index].Stored?
  }

  /** No stored device is without its pairing. */
  ghost predicate AllSourced(logs: seq<seq<Pairing.Entry>>, sources: map<nat, Place>)
  {
    forall place :: IsStored(logs, place) ==> place in sources.Values
  }

  /** A key that some submission enrolled under this identifier. */
  ghost predicate KeyFrom(logs: seq<seq<Pairing.Entry>>, d: string, pubkey: Bytes)
  {
    exists place :: StoredAt(logs, place, d) && logs[place.era][place.index].enrollment.pubkey == pubkey
  }

  /** The keys of the table, and those that requests in flight are verified with. */
  ghost predicate KeysEnrolled(logs: seq<seq<Pairing.Entry>>, a: Admission.State)
  {
    && (forall d :: d in a.db.devices ==> KeyFrom(logs, d, a.db.devices[d].pubkey))
    && (forall rid :: rid in a.handlers ==>
        KeyFrom(logs, a.handlers[rid].f.device.deviceId, a.handlers[rid].f.device.pubkey))
  }

  ghost predicate Inv(p: Primitives, cfg: Config, s: State, at: int)
  {
    && PairingProofs.Inv(p, cfg.pairing, s.pairing)
    && (forall i :: 0 <= i < |s.eras| ==> PairingProofs.History(p, cfg.pairing, s.eras[i]))
    && Admission.Inv(p, cfg.admission, s.admission, at)
    && Sourced(Logs(s), s.admission.log, s.sources)
    && AllSourced(Logs(s), s.sources)
    && KeysEnrolled(Logs(s), s.admission)
  }

  // ---- The logs grow ----

  ghost predicate Grown(logs: seq<seq<Pairing.Entry>>, more: seq<seq<Pairing.Entry>>)
  {
    |logs| <= |more| && forall i :: 0 <= i < |logs| ==> logs[i] <= more[i]
  }

  lemma KeyStays(logs: seq<seq<Pairing.Entry>>, more: seq<seq<Pairing.Entry>>, d: string, pubkey: Bytes)
    requires Grown(logs, more) && KeyFrom(logs, d, pubkey)
    ensures KeyFrom(more, d, pubkey)
  {
    var place :| StoredAt(logs, place, d) && logs[place.era][place.index].enrollment.pubkey == pubkey;
    assert StoredAt(more, place, d);
  }

  lemma SourcesStay(
      logs: seq<seq<Pairing.Entry>>, more: seq<seq<Pairing.Entry>>, log: seq<Admission.Entry>, 
      sources: map<nat, Place>)
    requires Grown(logs, more) && Sourced(logs, log, sources)
    ensures Sourced(more, log, sources)
  {
  }

  lemma KeysStay(logs: seq<seq<Pairing.Entry>>, more: seq<seq<Pairing.Entry>>, a: Admission.State)
    requires Grown(logs, more) && KeysEnrolled(logs, a)
    ensures KeysEnrolled(more, a)
  {
    forall d | d in a.db.devices ensures KeyFrom(more, d, a.db.devices[d].pubkey) {
      KeyStays(logs, more, d, a.db.devices[d].pubkey);
    }
    forall rid | rid in a.handlers
      ensures KeyFrom(more, a.handlers[rid].f.device.deviceId, a.handlers[rid].f.device.pubkey)
    {
      KeyStays(logs, more, a.handlers[rid].f.device.deviceId, a.handlers[rid].f.device.pubkey);
    }
    hide KeyFrom, Grown;
  }

  // ---- Pairing steps ----

  /** What a pairing step stores can be stored, under the identifier of its key. */
  lemma StoredFits(p: Primitives, cfg: Pairing.Config, s: Pairing.State, t: Pairing.Timed, i: nat)
    requires PairingProofs.Inv(p, cfg, s) && Pairing.Configured(cfg) && Pairing.Enabled(cfg, s, t)
    requires var log := Pairing.Step(p, cfg, s, t).log; |s.log| <= i < |log| && log[i].Stored?
    ensures var e := Pairing.Step(p, cfg, s, t).log[i].enrollment;
            Encodable(e.name) && e.deviceId == DeviceIdFor(p, e.pubkey)
  {
    var next := Pairing.Step(p, cfg, s, t);
    PairingProofs.StepKeeps(p, cfg, s, t);
    PairingTheorems.StoredProper(p, cfg, next.log, i);
    PairingLog.StoredName(p, cfg, s, t, i);
    hide Pairing.Step, PairingProofs.Inv, Pairing.Enabled, Encodable, DeviceIdFor;
  }

  /** The row of a device just enrolled: named anew, paired at this second, not revoked, with its last visit kept. */
  predicate RowOf(before: Db, after: Db, e: Pairing.Enrollment, wall: int)
  {
    && e.deviceId in after.devices
    && var row := after.devices[e.deviceId];
    && row.deviceId == e.deviceId && row.name == e.name && row.platform == e.platform
    && row.pairedAt == wall && row.revokedAt == None
    && row.lastSeenAt == if e.deviceId in before.devices then before.devices[e.deviceId].lastSeenAt else None
  }

  /** The enrollment of a stored device adds one pairing, and a row with its key where there was none. */
  lemma Enrolls(p: Primitives, cfg: Admission.Config, a: Admission.State, e: Pairing.Enrollment, wall: int)
    requires Admission.KeysDerived(p, a.db.devices) && Encodable(e.name) && e.deviceId == DeviceIdFor(p, e.pubkey)
    ensures var next := Admission.Step(p, cfg, a, EnrollOf(e, wall));
            && next.log == a.log + [Admission.Paired(e.deviceId)] && next.handlers == a.handlers
            && Admission.Active(next.db.devices, e.deviceId)
            && next.db.devices.Keys == a.db.devices.Keys + {e.deviceId}
            && forall d :: d in next.db.devices ==>
                 next.db.devices[d].pubkey == if d in a.db.devices then a.db.devices[d].pubkey else e.pubkey
    ensures var next := Admission.Step(p, cfg, a, EnrollOf(e, wall));
            && RowOf(a.db, next.db, e, wall)
            && forall d :: d in a.db.devices && d != e.deviceId ==> next.db.devices[d] == a.db.devices[d]
  {
    AdmissionProofs.EnrollmentNeverCollides(p, a.db.devices, e.pubkey);
    hide DeviceIdFor, Encodable, KeyTaken, Admission.KeysDerived;
  }

  lemma SourcesAdd(
      logs: seq<seq<Pairing.Entry>>, log: seq<Admission.Entry>, sources: map<nat, Place>, place: Place, d: string)
    requires Sourced(logs, log, sources) && StoredAt(logs, place, d)
    requires forall k :: k in sources ==> Earlier(sources[k], place)
    ensures Sourced(logs, log + [Admission.Paired(d)], sources[|log| := place])
  {
  }

  /** What came from the logs so far comes before what a pairing step adds. */
  lemma SourcesBefore(s: State, more: seq<seq<Pairing.Entry>>, i: nat)
    requires Sourced(Logs(s), s.admission.log, s.sources) && i >= |s.pairing.log|
    ensures forall k :: k in s.sources ==> Earlier(s.sources[k], Place(|s.eras|, i))
  {
    forall k | k in s.sources ensures Earlier(s.sources[k], Place(|s.eras|, i)) {
      assert StoredAt(Logs(s), s.sources[k], s.admission.log[k].deviceId);
    }
  }

  lemma LogsGrow(s: State, next: State)
    requires next.eras == s.eras && s.pairing.log <= next.pairing.log
    ensures Grown(Logs(s), Logs(next))
  {
  }

  lemma KeysAdd(
      logs: seq<seq<Pairing.Entry>>, a: Admission.State, next: Admission.State, place: Place, e: Pairing.Enrollment)
    requires KeysEnrolled(logs, a) && StoredAt(logs, place, e.deviceId) && logs[place.era][place.index].enrollment == e
    requires next.handlers == a.handlers && next.db.devices.Keys == a.db.devices.Keys + {e.deviceId}
    requires forall d :: d in next.db.devices ==>
               next.db.devices[d].pubkey == if d in a.db.devices then a.db.devices[d].pubkey else e.pubkey
    ensures KeysEnrolled(logs, next)
  {
    assert KeyFrom(logs, e.deviceId, e.pubkey);
    hide KeyFrom;
  }

  /** A pairing step drops no stored device: the one it enrolls is the only new one. */
  lemma NoneDropped(p: Primitives, cfg: Config, s: State, t: Pairing.Timed, wall: int)
    requires Pairing.Enabled(cfg.pairing, s.pairing, t) && AllSourced(Logs(s), s.sources)
    requires forall k :: k in s.sources ==> k < |s.admission.log|
    ensures var next := Paired(p, cfg, s, Pairing.Step(p, cfg.pairing, s.pairing, t), wall);
            AllSourced(Logs(next), next.sources)
  {
    hide Pairing.Step, Pairing.Enabled, Admission.Step;
    var pairing := Pairing.Step(p, cfg.pairing, s.pairing, t);
    var next := Paired(p, cfg, s, pairing, wall);
    PairingLog.LogTellsActions(p, cfg.pairing, s.pairing, t);
    forall place | IsStored(Logs(next), place) ensures place in next.sources.Values {
      if place.era == |s.eras| && place.index >= |s.pairing.log| {
        var i := NewStored(pairing.log, |s.pairing.log|).value;
        PairingLog.StoresOnce(p, cfg.pairing, s.pairing, t, i, place.index);
        assert next.sources[|s.admission.log|] == place;
      } else {
        assert IsStored(Logs(s), place);
        var k :| k in s.sources && s.sources[k] == place;
        assert next.sources[k] == place;
      }
    }
  }

  lemma PairKeeps(p: Primitives, cfg: Config, s: State, t: Pairing.Timed, wall: int, at: int)
    requires Pairing.Configured(cfg.pairing) && Inv(p, cfg, s, at) && at <= wall
    requires Pairing.Enabled(cfg.pairing, s.pairing, t)
    ensures Inv(p, cfg, Step(p, cfg, s, Pair(t, wall)), wall)
  {
    NoneDropped(p, cfg, s, t, wall);
    hide PairingProofs.Inv, PairingProofs.History, Admission.Inv, Sourced, AllSourced, KeysEnrolled, Pairing.Step,
         Grown,
         Encodable, Pairing.Enabled, Admission.Step;
    var pairing := Pairing.Step(p, cfg.pairing, s.pairing, t);
    var next := Step(p, cfg, s, Pair(t, wall));
    var mid := s.(pairing := pairing);
    PairingProofs.StepKeeps(p, cfg.pairing, s.pairing, t);
    PairingLog.LogTellsActions(p, cfg.pairing, s.pairing, t);
    LogsGrow(s, mid);
    SourcesStay(Logs(s), Logs(mid), s.admission.log, s.sources);
    KeysStay(Logs(s), Logs(mid), s.admission);
    assert Admission.Inv(p, cfg.admission, s.admission, wall) by { LaterInv(p, cfg.admission, s.admission, at, wall); }
    if NewStored(pairing.log, |s.pairing.log|).Some? { EnrollKeeps(p, cfg, s, t, wall); }
  }

  lemma LaterInv(p: Primitives, cfg: Admission.Config, a: Admission.State, at: int, later: int)
    requires Admission.Inv(p, cfg, a, at) && at <= later
    ensures Admission.Inv(p, cfg, a, later)
  {
  }

  lemma EnrollKeeps(p: Primitives, cfg: Config, s: State, t: Pairing.Timed, wall: int)
    requires Pairing.Configured(cfg.pairing) && PairingProofs.Inv(p, cfg.pairing, s.pairing)
    requires Admission.Inv(p, cfg.admission, s.admission, wall) && Pairing.Enabled(cfg.pairing, s.pairing, t)
    requires var mid := s.(pairing := Pairing.Step(p, cfg.pairing, s.pairing, t));
             && NewStored(mid.pairing.log, |s.pairing.log|).Some?
             && Sourced(Logs(mid), s.admission.log, s.sources) && KeysEnrolled(Logs(mid), s.admission)
    requires Sourced(Logs(s), s.admission.log, s.sources)
    ensures var next := Step(p, cfg, s, Pair(t, wall));
            && Admission.Inv(p, cfg.admission, next.admission, wall)
            && Sourced(Logs(next), next.admission.log, next.sources) && KeysEnrolled(Logs(next), next.admission)
  {
    hide PairingProofs.Inv, Sourced, KeysEnrolled, Pairing.Step, Pairing.Enabled, Encodable, Admission.Step,
         Admission.NoncesAreHistory,
         Admission.LiveDistinct, Admission.DevicesAreHistory, Admission.HandlersRemember, Admission.AdmissionsSound,
         Admission.VisitorsAdmitted,
         Admission.SweepsBefore, Admission.KeysDerived;
    var mid := s.(pairing := Pairing.Step(p, cfg.pairing, s.pairing, t));
    var i := NewStored(mid.pairing.log, |s.pairing.log|).value;
    var e := mid.pairing.log[i].enrollment;
    StoredFits(p, cfg.pairing, s.pairing, t, i);
    Enrolls(p, cfg.admission, s.admission, e, wall);
    AdmissionProofs.StepKeeps(p, cfg.admission, s.admission, EnrollOf(e, wall), wall);
    SourcesBefore(s, Logs(mid), i);
    var place := Place(|s.eras|, i);
    assert StoredAt(Logs(mid), place, e.deviceId);
    SourcesAdd(Logs(mid), s.admission.log, s.sources, place, e.deviceId);
    KeysAdd(Logs(mid), s.admission, Admission.Step(p, cfg.admission, s.admission, EnrollOf(e, wall)), place, e);
  }

  // ---- All other steps ----

  /** No other step pairs a device or gives a row a new key. */
  lemma ServeRows(p: Primitives, cfg: Admission.Config, a: Admission.State, u: Admission.Timed)
    requires !u.action.Enroll?
    ensures forall d :: d in Admission.Step(p, cfg, a, u).db.devices ==>
              d in a.db.devices && Admission.Step(p, cfg, a, u).db.devices[d].pubkey == a.db.devices[d].pubkey
  {
    hide Admission.BodyChecks, Admission.Gate;
  }

  /** A request in flight keeps the row it was looked up in. */
  lemma ServeHandlers(p: Primitives, cfg: Admission.Config, a: Admission.State, u: Admission.Timed)
    requires Admission.KeysDerived(p, a.db.devices)
    ensures forall rid :: rid in Admission.Step(p, cfg, a, u).handlers ==>
              var device := Admission.Step(p, cfg, a, u).handlers[rid].f.device;
              || (rid in a.handlers && device == a.handlers[rid].f.device)
              || (device.deviceId in a.db.devices && device == a.db.devices[device.deviceId])
  {
    hide Admission.Verdict, DeviceIdFor, Admission.Gate;
    if u.action.Arrive? { GateDevice(cfg, a.db, u.action.request, u.action.limiterOk, u.at); }
  }

  lemma GateDevice(cfg: Admission.Config, db: Db, r: Admission.Incoming, limiterOk: bool, now: int)
    ensures var g := Admission.Gate(cfg, db, r, limiterOk, now);
            g.Ok? ==> g.value.headers.deviceId in db.devices && g.value.device == db.devices[g.value.headers.deviceId]
  {
  }

  lemma ServeLog(p: Primitives, cfg: Admission.Config, a: Admission.State, u: Admission.Timed)
    requires !u.action.Enroll?
    ensures var next := Admission.Step(p, cfg, a, u);
            a.log <= next.log && forall k :: |a.log| <= k < |next.log| ==> !next.log[k].Paired?
  {
    hide Admission.Gate, Admission.BodyChecks;
  }

  lemma ServedKeys(
      p: Primitives, cfg: Admission.Config, logs: seq<seq<Pairing.Entry>>, a: Admission.State, u: Admission.Timed)
    requires !u.action.Enroll? && Admission.KeysDerived(p, a.db.devices) && KeysEnrolled(logs, a)
    ensures KeysEnrolled(logs, Admission.Step(p, cfg, a, u))
  {
    ServeRows(p, cfg, a, u);
    ServeHandlers(p, cfg, a, u);
    hide Admission.Step, KeyFrom, DeviceIdFor;
  }

  lemma ServeKeeps(p: Primitives, cfg: Config, s: State, u: Admission.Timed, at: int)
    requires Inv(p, cfg, s, at) && at <= u.at && !u.action.Enroll?
    ensures Inv(p, cfg, Step(p, cfg, s, Serve(u)), u.at)
  {
    hide PairingProofs.History, Sourced, AllSourced, KeysEnrolled, Admission.Step, Grown, Admission.NoncesAreHistory,
         Admission.LiveDistinct, Admission.DevicesAreHistory, Admission.HandlersRemember, Admission.AdmissionsSound,
         Admission.VisitorsAdmitted,
         Admission.SweepsBefore, Admission.KeysDerived;
    var next := Step(p, cfg, s, Serve(u));
    AdmissionProofs.StepKeeps(p, cfg.admission, s.admission, u, at);
    ServedKeys(p, cfg.admission, Logs(s), s.admission, u);
    ServeLog(p, cfg.admission, s.admission, u);
    SourcesSame(Logs(s), s.admission.log, next.admission.log, s.sources);
    if u.action.Restart? {
      Restarted(p, cfg, s, next);
      SourcesStay(Logs(s), Logs(next), next.admission.log, s.sources);
      KeysStay(Logs(s), Logs(next), next.admission);
      NothingNew(s, next);
    }
    hide PairingProofs.Inv;
  }

  lemma NothingNew(s: State, next: State)
    requires next.pairing == Pairing.Initial && next.eras == s.eras + [s.pairing.log]
    requires next.sources == s.sources && AllSourced(Logs(s), s.sources)
    ensures AllSourced(Logs(next), next.sources)
  {
    forall place | IsStored(Logs(next), place) ensures place in next.sources.Values { assert IsStored(Logs(s), place); }
  }

  lemma SourcesSame(
      logs: seq<seq<Pairing.Entry>>, log: seq<Admission.Entry>, more: seq<Admission.Entry>, sources: map<nat, Place>)
    requires Sourced(logs, log, sources) && log <= more && forall k :: |log| <= k < |more| ==> !more[k].Paired?
    ensures Sourced(logs, more, sources)
  {
  }

  lemma Restarted(p: Primitives, cfg: Config, s: State, next: State)
    requires PairingProofs.Inv(p, cfg.pairing, s.pairing)
    requires next.pairing == Pairing.Initial && next.eras == s.eras + [s.pairing.log]
    ensures Grown(Logs(s), Logs(next)) && PairingProofs.Inv(p, cfg.pairing, next.pairing)
    ensures PairingProofs.History(p, cfg.pairing, next.eras[|s.eras|])
  {
  }

  // ---- Runs ----

  lemma StepKeeps(p: Primitives, cfg: Config, s: State, a: Action, at: int)
    requires Pairing.Configured(cfg.pairing) && Inv(p, cfg, s, at) && Enabled(cfg, s, a) && at <= Wall(a)
    ensures Inv(p, cfg, Step(p, cfg, s, a), Wall(a))
  {
    match a
    case Pair(t, wall) => PairKeeps(p, cfg, s, t, wall, at);
    case Serve(u) => ServeKeeps(p, cfg, s, u, at);
  }

  lemma {:induction false} RunKeeps(
      p: Primitives, cfg: Config, s: State, from: int, run: seq<Action>, last: State, end: int)
    requires Pairing.Configured(cfg.pairing) && Inv(p, cfg, s, from) && Runs(p, cfg, s, from, run, last, end)
    ensures Inv(p, cfg, last, end)
    decreases |run|
  {
    hide Inv, Step, Enabled;
    if run != [] {
      StepKeeps(p, cfg, s, run[0], from);
      RunKeeps(p, cfg, Step(p, cfg, s, run[0]), Wall(run[0]), run[1..], last, end);
    }
  }

  lemma InitialHolds(p: Primitives, cfg: Config, from: int)
    ensures Inv(p, cfg, Initial, from)
  {
    AdmissionProofs.InitialHolds(p, cfg.admission, from);
  }

  // ---- Between the two store calls of an enrollment ----

  /**
   A request, sweep or operator command that comes between the device row and the rest of an enrollment
   comes to the same after it: it neither sees nor changes the pairing window.
   */
  lemma ServedBetween(
      p: Primitives, cfg: Config, s: State, sid: nat, window: nat, e: Pairing.Enrollment, audited: bool,
      u: Admission.Timed, wall: int)
    requires !u.action.Restart?
    ensures var half := PairingLog.HalfFinished(s.pairing, sid, window, e);
            var whole := PairingLog.OtherHalf(half, sid, window, e, audited);
            Served(p, cfg, Paired(p, cfg, s, half, wall), u).(pairing := whole)
            == Served(p, cfg, Paired(p, cfg, s, whole, wall), u)
  {
    hide Admission.Step;
    var half := PairingLog.HalfFinished(s.pairing, sid, window, e);
    var whole := PairingLog.OtherHalf(half, sid, window, e, audited);
    assert half.log[|s.pairing.log|] == whole.log[|s.pairing.log|] == Pairing.Stored(sid, window, e);
  }
}
