/** The answer to a status request, which carries the name of a device that waits for approval. */
module Status {
  import opened Prelude
  import opened Crypto
  import opened Auth
  import opened Unicode
  import opened Json
  import Middleware
  import Exchange
  import Envelope
  import PairingProofs
  import opened Pairing
  import opened PairingTheorems
  import opened PairingDrain
  import opened PairingHonest

  function Field(name: string, value: Json): (UText, Json) { (Points(name), value) }

  function Plain(s: string): Json { String(Points(s)) }

  function PhaseName(phase: Phase): string
  {
    match phase case Idle => "idle" case Open => "open" case AwaitingApproval => "awaiting_approval"
  }

  /** What `snapshot` says of the pending submission. */
  function PendingJson(p: Primitives, e: Enrollment, requestedAt: int): Json
  {
    var fp := Fingerprint(p, e.pubkey);
    Obj([Field("device_id", Plain(e.deviceId)), Field("fp", Plain(fp)),
         Field("short_fp", Plain(if |fp| > 8 then fp[..8] else fp)), Field("device_name", String(e.name)),
         Field("platform", Plain(e.platform)), Field("requested_at", Number(requestedAt))])
  }

  function SecondsLeft(deadline: real, now: real): int { if deadline <= now then 0 else (deadline - now).Floor }

  function WindowFields(s: State, expiresAt: int, now: real): seq<(UText, Json)>
  {
    if s.window.None? then []
    else [Field("expires_at", Number(expiresAt)),
          Field("expires_in_s", Number(SecondsLeft(s.window.value.deadline, now))),
          Field("attempts_left", Number(s.window.value.attemptsLeft))]
  }

  function PendingOf(s: State): Option<Enrollment>
  {
    if s.pending.Some? then Requested(s.log, s.pending.value) else None
  }

  function Snapshot(p: Primitives, s: State, expiresAt: int, now: real, requestedAt: int): Json
  {
    Obj([Field("active", Bool(s.phase != Idle)), Field("state", Plain(PhaseName(s.phase)))]
        + WindowFields(s, expiresAt, now)
        + if PendingOf(s).Some? then [Field("pending", PendingJson(p, PendingOf(s).value, requestedAt))] else [])
  }

  /** What else the status endpoint says is any list of fields. */
  function StatusReply(info: seq<(UText, Json)>, snapshot: Json): Middleware.Reply
  {
    Middleware.Success(Obj(info + [Field("pairing", snapshot)]))
  }

  // ---- What it says ----

  /** The value the phone reads for each name. */
  lemma SnapshotField(
      p: Primitives, s: State, expiresAt: int, now: real, requestedAt: int, wanted: string)
    ensures Envelope.Field(Snapshot(p, s, expiresAt, now, requestedAt).fields, wanted)
         == if wanted == "pending" && PendingOf(s).Some?
            then Some(PendingJson(p, PendingOf(s).value, requestedAt))
            else if wanted == "attempts_left" && s.window.Some? then Some(Number(s.window.value.attemptsLeft))
            else if wanted == "expires_in_s" && s.window.Some?
            then Some(Number(SecondsLeft(s.window.value.deadline, now)))
            else if wanted == "expires_at" && s.window.Some? then Some(Number(expiresAt))
            else if wanted == "state" then Some(Plain(PhaseName(s.phase)))
            else if wanted == "active" then Some(Bool(s.phase != Idle)) else None
  {
    hide Points, PendingJson, Envelope.Field, PendingOf;
    var head := [Field("active", Bool(s.phase != Idle)), Field("state", Plain(PhaseName(s.phase)))];
    Envelope.TwoFields("active", head[0].1, "state", head[1].1, wanted);
    var more := head + WindowFields(s, expiresAt, now);
    if s.window.Some? {
      var w := WindowFields(s, expiresAt, now);
      Envelope.LastField(head, "expires_at", w[0].1, wanted);
      Envelope.LastField(head + [w[0]], "expires_in_s", w[1].1, wanted);
      Envelope.LastField(head + [w[0]] + [w[1]], "attempts_left", w[2].1, wanted);
      assert more == head + [w[0]] + [w[1]] + [w[2]];
    } else {
      assert more == head;
    }
    if PendingOf(s).Some? {
      Envelope.LastField(more, "pending", PendingJson(p, PendingOf(s).value, requestedAt), wanted);
    } else {
      assert more + [] == more;
    }
  }

  function Told(p: Primitives, s: State, expiresAt: int, now: real, requestedAt: int, name: string): Option<Json>
  {
    Envelope.Field(Snapshot(p, s, expiresAt, now, requestedAt).fields, name)
  }

  /** The snapshot of a reachable state says what its history says. */
  lemma SnapshotTells(p: Primitives, cfg: Config, s: State, expiresAt: int, now: real, requestedAt: int)
    requires Configured(cfg) && Reachable(p, cfg, s)
    ensures Told(p, s, expiresAt, now, requestedAt, "active") == Some(Bool(PairingProofs.Follow(s.events)))
    ensures Told(p, s, expiresAt, now, requestedAt, "state")
         == Some(Plain(if !PairingProofs.Follow(s.events) then "idle"
                       else if s.pending.None? then "open" else "awaiting_approval"))
    ensures Told(p, s, expiresAt, now, requestedAt, "attempts_left")
         == if s.window.None? then None
            else Some(Number(cfg.maxAttempts - PairingProofs.WrongCodes(s.log, s.window.value.id)))
    ensures Told(p, s, expiresAt, now, requestedAt, "pending").Some? <==> s.pending.Some?
  {
    PhaseIsState(p, cfg, s);
    EventsTellState(p, cfg, s);
    PendingKnown(p, cfg, s);
    hide Reachable, Envelope.Field, Snapshot, PendingJson, PairingProofs.WrongCodes, PairingProofs.Follow, Points;
    SnapshotField(p, s, expiresAt, now, requestedAt, "active");
    SnapshotField(p, s, expiresAt, now, requestedAt, "state");
    SnapshotField(p, s, expiresAt, now, requestedAt, "attempts_left");
    SnapshotField(p, s, expiresAt, now, requestedAt, "pending");
  }

  // ---- When it can be sent ----

  lemma PendingSendable(p: Primitives, e: Enrollment, requestedAt: int)
    ensures Sendable(PendingJson(p, e, requestedAt)) <==> Encodable(e.name)
  {
    var j := PendingJson(p, e, requestedAt);
    assert j.fields[3] == Field("device_name", String(e.name));
    hide Fingerprint, Encodable;
    assert Sendable(j.fields[3].1) <==> Encodable(e.name);
  }

  lemma FieldsJoin(a: seq<(UText, Json)>, b: seq<(UText, Json)>)
    ensures Sendable(Obj(a + b)) <==> Sendable(Obj(a)) && Sendable(Obj(b))
  {
    if Sendable(Obj(a + b)) {
      forall i | 0 <= i < |a| ensures Encodable(a[i].0) && Sendable(a[i].1) { assert (a + b)[i] == a[i]; }
      forall i | 0 <= i < |b| ensures Encodable(b[i].0) && Sendable(b[i].1) { assert (a + b)[|a| + i] == b[i]; }
    }
    hide Encodable;
  }

  lemma FieldSendable(name: string, value: Json)
    ensures Sendable(Obj([Field(name, value)])) <==> Sendable(value)
  {
    var f := [Field(name, value)];
    assert f[0] == Field(name, value);
    hide Encodable;
  }

  /** The pending device's name holds a lone surrogate. */
  predicate NameSilences(s: State) { PendingOf(s).Some? && !Encodable(PendingOf(s).value.name) }

  lemma SnapshotSendable(p: Primitives, s: State, expiresAt: int, now: real, requestedAt: int)
    ensures Sendable(Snapshot(p, s, expiresAt, now, requestedAt)) <==> !NameSilences(s)
  {
    var head := [Field("active", Bool(s.phase != Idle)), Field("state", Plain(PhaseName(s.phase)))];
    var window := WindowFields(s, expiresAt, now);
    FieldsJoin(head, window);
    assert Sendable(Obj(head)) && Sendable(Obj(window));
    hide Sendable, PendingJson, Encodable;
    if PendingOf(s).Some? {
      var pending := PendingJson(p, PendingOf(s).value, requestedAt);
      PendingSendable(p, PendingOf(s).value, requestedAt);
      FieldSendable("pending", pending);
      FieldsJoin(head + window, [Field("pending", pending)]);
    } else {
      assert head + window + [] == head + window;
    }
  }

  /** A status answer is signed exactly when no device with an unsendable name is pending. */
  lemma StatusSignedExactly(
      p: Primitives, serverSeed: Bytes, headers: HeaderMap, ts: int, info: seq<(UText, Json)>,
      s: State, expiresAt: int, now: real, requestedAt: int)
    requires Sendable(Obj(info))
    ensures var reply := StatusReply(info, Snapshot(p, s, expiresAt, now, requestedAt));
            Middleware.Enveloped(p, serverSeed, headers, ts, reply).signature.Some? <==> !NameSilences(s)
  {
    var snapshot := Snapshot(p, s, expiresAt, now, requestedAt);
    SnapshotSendable(p, s, expiresAt, now, requestedAt);
    FieldSendable("pairing", snapshot);
    FieldsJoin(info, [Field("pairing", snapshot)]);
    Exchange.SignedExactly(p, serverSeed, headers, ts, StatusReply(info, snapshot));
    hide Sendable, Snapshot, NameSilences, Middleware.Enveloped, Middleware.Payload, Render;
  }

  lemma {:induction false} MatchedRequested(log: seq<Entry>, sid: nat)
    requires MatchedIn(log, sid)
    ensures Requested(log, sid).Some?
  {
    var x :| x in log && x.Matched? && x.sid == sid;
    if x != log[|log| - 1] {
      assert log == log[..|log| - 1] + [log[|log| - 1]];
      assert x in log[..|log| - 1];
      MatchedRequested(log[..|log| - 1], sid);
    }
  }

  /** In every reachable state the snapshot knows whom it reports as pending. */
  lemma PendingKnown(p: Primitives, cfg: Config, s: State)
    requires Configured(cfg) && Reachable(p, cfg, s)
    ensures PendingOf(s).Some? <==> s.phase == AwaitingApproval
  {
    ReachableInv(p, cfg, s);
    if s.pending.Some? { MatchedRequested(s.log, s.pending.value); }
  }

  /**
   With approval on and a store that works, an approved submission under such a name leaves the window
   stranded and, until the operator cancels it, every status answer unsigned.
   */
  lemma SurrogateSilences(p: Primitives, cfg: Config, serverSeed: Bytes, seed: Bytes) returns (s: State)
    requires Sound(p) && Configured(cfg) && OwnServer(p, cfg, serverSeed) && cfg.requireApproval
    ensures Reachable(p, cfg, s) && StoreWorked(s.log) && Stranded(s) && NameSilences(s)
  {
    CleanNameKeeps([0xD800]);
    assert [0xD800][0] == 0xD800;
    s := StrandedAfter(p, cfg, serverSeed, seed, [0xD800], UpsertRaises);
    hide Reachable, Stranded, CleanName;
  }

  // ---- How an honest phone comes by such a name ----

  const PHONE_NAME := 60

  /** The phone cuts its name by code units. */
  function PhoneName(u: seq<Unit>): seq<Unit> { if |u| > PHONE_NAME then u[..PHONE_NAME] else u }

  /** The cut leaves a lone surrogate exactly when it goes through a pair. */
  lemma PhoneNameEncodable(u: seq<Unit>)
    requires Encodable(FromUtf16(u))
    ensures Encodable(FromUtf16(PhoneName(u))) <==> !(|u| > PHONE_NAME && IsHigh(u[PHONE_NAME - 1]))
  {
    hide FromUtf16, Encodable;
    CutExactly(u, if |u| > PHONE_NAME then PHONE_NAME else |u|);
    assert u[..|u|] == u;
  }
}
