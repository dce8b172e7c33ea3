/**
 Choosing and unlocking a login session, against any behaviour of the login manager. What the
 commands print is taken as already split into fields. A trace records every command and every sleep;
 what a command answers may depend on everything that went before, so it is a function of its position.
 */
module Session {
  import opened Prelude
  import opened Text
  import opened Auth

  datatype SessionInfo = SessionInfo(id: string, uid: int, kind: string, klass: string, active: bool, locked: bool)

  /** The answer of `show-session`. */
  datatype Reply =
    | Broken
    | Gone
    | Shown(id: string, uid: int, kind: string, klass: string, active: string, lockedHint: string)

  datatype JsonEntry = NotAnObject | Object(session: string, uid: Option<int>, klass: string)
  datatype JsonListing = JsonBroken | JsonUnusable | JsonEntries(entries: seq<JsonEntry>)
  datatype TableListing = TableBroken | TableFails | TableRows(rows: seq<seq<string>>)

  datatype CommandStatus = CannotRun | Exit(code: int)

  /** The login manager and the clock: `delay` is what passes during a step, besides what it sleeps. */
  datatype Env = Env(
    json: JsonListing, table: TableListing,
    show: (nat, string) -> Reply, unlock: (nat, string) -> CommandStatus, delay: nat -> real)

  datatype Event = Listing | Read(asked: string, reply: Reply) | Unlock(id: string, status: CommandStatus) | Slept

  datatype UnlockResult = UnlockResult(session: SessionInfo, wasLocked: bool, unlocked: bool)

  type Listed = (string, int, string)

  const CONFIRM_TIMEOUT := 5.0
  const POLL_INTERVAL := 0.2

  /** The timeout over the interval, and one more. */
  const MAX_READS := 26

  ghost predicate Forward(env: Env) { forall k: nat :: env.delay(k) >= 0.0 }

  function Time(env: Env, trace: seq<Event>): real
  {
    if trace == [] then 0.0
    else Time(env, trace[..|trace| - 1]) + env.delay(|trace| - 1) + if trace[|trace| - 1].Slept? then POLL_INTERVAL
        else 0.0
  }

  /** The pattern's end anchor also allows one line feed after the last character. */
  predicate ValidId(id: string)
  {
    PlainId(id) || (id != "" && id[|id| - 1] == '\n' && PlainId(id[..|id| - 1]))
  }

  predicate PlainId(id: string)
  {
    1 <= |id| <= 32
    && forall i :: 0 <= i < |id| ==> IsDigit(id[i]) || 'a' <= id[i] <= 'z' || 'A' <= id[i] <= 'Z'
  }

  predicate Graphical(s: SessionInfo)
  {
    s.klass == "user" && (s.kind == "wayland" || s.kind == "x11" || s.kind == "mir")
  }

  function Info(asked: string, r: Reply): SessionInfo
    requires r.Shown?
  {
    SessionInfo(if r.id != "" then r.id else asked, r.uid, Lower(r.kind), Lower(r.klass), r.active == "yes",
        r.lockedHint == "yes")
  }

  // ---- The order of candidates ----

  function Rank(s: SessionInfo): (int, int, int)
  {
    (if s.locked then 0 else 1, if s.active then 0 else 1,
     if s.id != "" && AllDigits(s.id) then ParseNat(s.id) else 1000000)
  }

  predicate Before(a: SessionInfo, b: SessionInfo)
  {
    var x, y := Rank(a), Rank(b);
    x.0 < y.0 || (x.0 == y.0 && (x.1 < y.1 || (x.1 == y.1 && x.2 < y.2)))
  }

  /** A stable sort: an element goes behind every element that does not come after it. */
  function Insert(s: SessionInfo, sorted: seq<SessionInfo>): (r: seq<SessionInfo>)
    ensures |r| == |sorted| + 1
  {
    if sorted == [] || Before(s, sorted[0]) then [s] + sorted
    else [sorted[0]] + Insert(s, sorted[1..])
  }

  function Sorted(ss: seq<SessionInfo>): (r: seq<SessionInfo>)
    ensures |r| == |ss|
  {
    if ss == [] then [] else Insert(ss[|ss| - 1], Sorted(ss[..|ss| - 1]))
  }

  /** Of least rank, and the first of those that share it. */
  ghost predicate Leads(ss: seq<SessionInfo>, i: nat)
  {
    && i < |ss|
    && (forall j :: 0 <= j < |ss| ==> !Before(ss[j], ss[i]))
    && (forall j :: 0 <= j < i ==> Before(ss[i], ss[j]))
  }

  lemma BeforeAll(a: SessionInfo, b: SessionInfo, c: SessionInfo)
    requires Before(a, b) && !Before(c, b)
    ensures Before(a, c) && !Before(c, a)
  {
  }

  lemma SortedHead(ss: seq<SessionInfo>)
    requires |ss| > 1
    ensures var init, last := ss[..|ss| - 1], ss[|ss| - 1];
            Sorted(ss)[0] == if Before(last, Sorted(init)[0]) then last else Sorted(init)[0]
  {
    hide Before;
  }

  lemma LeadsLast(ss: seq<SessionInfo>, i: nat)
    requires ss != [] && Leads(ss[..|ss| - 1], i)
    ensures Leads(ss, if Before(ss[|ss| - 1], ss[i]) then |ss| - 1 else i)
  {
    var init, last := ss[..|ss| - 1], ss[|ss| - 1];
    assert !Before(last, last);
    hide Before, Rank;
    if Before(last, ss[i]) {
      forall j | 0 <= j < |init| ensures Before(last, ss[j]) && !Before(ss[j], last) {
        assert !Before(init[j], init[i]);
        BeforeAll(last, init[i], init[j]);
      }
    } else {
      forall j | 0 <= j < |init| ensures !Before(ss[j], ss[i]) { assert !Before(init[j], init[i]); }
      forall j | 0 <= j < i ensures Before(ss[i], ss[j]) { assert Before(init[i], init[j]); }
    }
  }

  /** The head of the sorted candidates is the first one of least rank. */
  lemma {:induction false} SortedLeads(ss: seq<SessionInfo>)
    requires ss != []
    ensures exists i: nat :: Leads(ss, i) && Sorted(ss)[0] == ss[i]
  {
    if |ss| == 1 {
      assert Leads(ss, 0) && Sorted(ss) == [ss[0]];
    } else {
      var init := ss[..|ss| - 1];
      SortedLeads(init);
      var i: nat :| Leads(init, i) && Sorted(init)[0] == init[i];
      SortedHead(ss);
      LeadsLast(ss, i);
      hide Sorted, Before, Leads;
      assert init[i] == ss[i];
    }
  }

  // ---- Listing ----

  function FromJson(e: JsonEntry): Option<Listed>
  {
    if e.NotAnObject? || !ValidId(Trim(e.session)) || e.uid.None? then None
    else Some((Trim(e.session), e.uid.value, e.klass))
  }

  function FromRow(fields: seq<string>): Option<Listed>
  {
    if |fields| < 2 || !ValidId(fields[0]) || fields[1] == "" || !AllDigits(fields[1]) then None
    else Some((fields[0], ParseNat(fields[1]), ""))
  }

  function Usable<T>(rows: seq<T>, read: T -> Option<Listed>): seq<Listed>
  {
    if rows == [] then []
    else Usable(rows[..|rows| - 1], read)
         + match read(rows[|rows| - 1]) { case Some(x) => [x] case None => [] }
  }

  /** The sessions listed in JSON, or in the table where there is no usable JSON. */
  function Listable(env: Env): Result<seq<Listed>, ErrorCode>
  {
    match env.json
    case JsonBroken => Err(InternalError)
    case JsonEntries(entries) => Ok(Usable(entries, FromJson))
    case JsonUnusable =>
      match env.table
      case TableRows(rows) => Ok(Usable(rows, FromRow))
      case _ => Err(InternalError)
  }

  /** The table is asked for only when the JSON is of no use. */
  function Listings(env: Env): seq<Event> { if env.json.JsonUnusable? then [Listing, Listing] else [Listing] }

  method ListSessionIds(env: Env) returns (r: Result<seq<Listed>, ErrorCode>, trace: seq<Event>)
    ensures r == Listable(env) && (r.Err? ==> r.error == InternalError)
    ensures trace == Listings(env)
  {
    trace := [Listing];
    if env.json.JsonBroken? { return Err(InternalError), trace; }
    var out: seq<Listed> := [];
    if env.json.JsonEntries? {
      var entries := env.json.entries;
      for i := 0 to |entries|
        invariant out == Usable(entries[..i], FromJson)
      {
        assert entries[..i + 1][..i] == entries[..i];
        var kept := FromJson(entries[i]);
        if kept.Some? { out := out + [kept.value]; }
      }
      assert entries[..|entries|] == entries;
      return Ok(out), trace;
    }
    trace := trace + [Listing];
    if !env.table.TableRows? { return Err(InternalError), trace; }
    var rows := env.table.rows;
    for i := 0 to |rows|
      invariant out == Usable(rows[..i], FromRow)
    {
      assert rows[..i + 1][..i] == rows[..i];
      var kept := FromRow(rows[i]);
      if kept.Some? { out := out + [kept.value]; }
    }
    assert rows[..|rows|] == rows;
    r := Ok(out);
  }

  // ---- Reading sessions ----

  /** None when the session is gone. A malformed id is not asked for. */
  method Describe(env: Env, id: string, before: seq<Event>)
      returns (r: Result<Option<SessionInfo>, ErrorCode>, trace: seq<Event>)
    ensures trace == if ValidId(id) then before + [Read(id, env.show(|before|, id))] else before
    ensures r == if ValidId(id) then Described(id, env.show(|before|, id)) else Err(BadRequest)
  {
    if !ValidId(id) { return Err(BadRequest), before; }
    var reply := env.show(|before|, id);
    trace := before + [Read(id, reply)];
    match reply
    case Broken => r := Err(InternalError);
    case Gone => r := Ok(None);
    case Shown(_, _, _, _, _, _) => r := Ok(Some(Info(id, reply)));
  }

  function Described(id: string, reply: Reply): Result<Option<SessionInfo>, ErrorCode>
  {
    match reply
    case Broken => Err(InternalError)
    case Gone => Ok(None)
    case Shown(_, _, _, _, _, _) => Ok(Some(Info(id, reply)))
  }

  /** The listed ids worth asking about, in order. */
  function Wanted(listed: seq<Listed>, uid: int): seq<string>
  {
    if listed == [] then []
    else
      var x := listed[|listed| - 1];
      Wanted(listed[..|listed| - 1], uid) + if x.1 == uid && (x.2 == "" || x.2 == "user") then [x.0] else []
  }

  /** The ids that a trace reads, in order. */
  function Asked(trace: seq<Event>): seq<string>
  {
    if trace == [] then []
    else Asked(trace[..|trace| - 1]) + match trace[|trace| - 1] { case Read(id, _) => [id] case _ => [] }
  }

  /** The sessions of a user that a trace was shown, in order. */
  function Seen(trace: seq<Event>, uid: int): seq<SessionInfo>
  {
    if trace == [] then []
    else
      var x := trace[|trace| - 1];
      Seen(trace[..|trace| - 1], uid)
      + if x.Read? && x.reply.Shown? && x.reply.uid == uid then [Info(x.asked, x.reply)] else []
  }

  lemma TraceAppend(env: Env, trace: seq<Event>, x: Event, uid: int)
    ensures Asked(trace + [x]) == Asked(trace) + match x { case Read(id, _) => [id] case _ => [] }
    ensures Seen(trace + [x], uid)
            == Seen(trace, uid) + if x.Read? && x.reply.Shown?
                && x.reply.uid == uid then [Info(x.asked, x.reply)] else []
    ensures Time(env, trace + [x])
            == Time(env, trace) + env.delay(|trace|) + if x.Slept? then POLL_INTERVAL else 0.0
  {
    assert (trace + [x])[..|trace|] == trace;
  }

  lemma {:induction false} NothingSeen(trace: seq<Event>, uid: int)
    requires forall x :: x in trace ==> x == Listing
    ensures Seen(trace, uid) == [] && Asked(trace) == []
  {
    if trace != [] {
      var init := trace[..|trace| - 1];
      assert trace == init + [trace[|trace| - 1]];
      forall x | x in init ensures x == Listing { assert x in trace; }
      assert trace[|trace| - 1] in trace;
      NothingSeen(init, uid);
    }
  }

  ghost predicate NoUnlock(trace: seq<Event>) { forall x :: x in trace ==> !x.Unlock? }

  /** What the login manager answers when it is asked for the session at position `k` of the wanted ones. */
  function GatherReply(env: Env, ids: seq<string>, k: nat): Reply
    requires k < |ids|
  {
    env.show(|Listings(env)| + k, ids[k])
  }

  /** The trace after the listing and the first `k` reads. */
  function Gathered(env: Env, ids: seq<string>, k: nat): (trace: seq<Event>)
    requires k <= |ids|
    ensures |trace| == |Listings(env)| + k
  {
    if k == 0 then Listings(env) else Gathered(env, ids, k - 1) + [Read(ids[k - 1], GatherReply(env, ids, k - 1))]
  }

  predicate AllAnswered(env: Env, ids: seq<string>)
  {
    forall k :: 0 <= k < |ids| ==> GatherReply(env, ids, k) != Broken
  }

  /** The trace ends with the first read that brings no answer. */
  ghost predicate BreaksOff(env: Env, ids: seq<string>, trace: seq<Event>)
  {
    exists k: nat ::
      && k < |ids| && GatherReply(env, ids, k) == Broken && trace == Gathered(env, ids, k + 1)
      && forall i :: 0 <= i < k ==> GatherReply(env, ids, i) != Broken
  }

  /** Each wanted session is read once, in the listed order; the user's own are kept. */
  method ListOwnSessions(env: Env, uid: int) returns (r: Result<seq<SessionInfo>, ErrorCode>, trace: seq<Event>)
    ensures NoUnlock(trace)
    ensures Listable(env).Err? ==> r == Err(InternalError) && trace == Listings(env)
    ensures Listable(env).Ok? ==>
              var ids := Wanted(Listable(env).value, uid);
              if AllAnswered(env, ids)
              then r == Ok(Seen(trace, uid)) && Asked(trace) == ids && trace == Gathered(env, ids, |ids|)
              else r == Err(InternalError) && BreaksOff(env, ids, trace)
  {
    hide Seen, Asked, ValidId, Listable, Gathered, BreaksOff, Described, Wanted, GatherReply, Lower;
    var ids;
    ids, trace := ListSessionIds(env);
    NothingSeen(trace, uid);
    if ids.Err? { return Err(ids.error), trace; }
    var listed := ids.value;
    ListedValid(env);
    ghost var wanted := Wanted(listed, uid);
    var own: seq<SessionInfo> := [];
    ghost var k := 0;
    GatheredNone(env, wanted);
    WantedNone(listed, uid);
    for i := 0 to |listed|
      invariant NoUnlock(trace)
      invariant own == Seen(trace, uid) && Asked(trace) == Wanted(listed[..i], uid)
      invariant k == |Wanted(listed[..i], uid)| && k <= |wanted| && trace == Gathered(env, wanted, k)
      invariant forall j :: 0 <= j < k ==> GatherReply(env, wanted, j) != Broken
    {
      WantedNext(listed, i, uid);
      var (id, theirs, klass) := listed[i];
      if theirs != uid || (klass != "" && klass != "user") { continue; }
      ghost var before := trace;
      var info;
      info, trace := Describe(env, id, trace);
      ReadNext(env, listed, i, uid, k, before);
      if info.Err? {
        BrokenRead(env, wanted, k, trace);
        return Err(InternalError), trace;
      }
      AnsweredRead(id, GatherReply(env, wanted, k));
      if info.value.Some? && info.value.value.uid == uid { own := own + [info.value.value]; }
      k := k + 1;
    }
    assert listed[..|listed|] == listed;
    r := Ok(own);
  }

  lemma WantedNone(listed: seq<Listed>, uid: int)
    ensures Wanted(listed[..0], uid) == []
  {
  }

  /** One more read of a wanted session. */
  lemma ReadNext(env: Env, listed: seq<Listed>, i: nat, uid: int, k: nat, before: seq<Event>)
    requires i < |listed| && listed[i].1 == uid && (listed[i].2 == "" || listed[i].2 == "user")
    requires k == |Wanted(listed[..i], uid)| && k <= |Wanted(listed, uid)|
    requires before == Gathered(env, Wanted(listed, uid), k)
    ensures k < |Wanted(listed, uid)| && Wanted(listed, uid)[k] == listed[i].0
    ensures var reply := GatherReply(env, Wanted(listed, uid), k);
            && env.show(|before|, listed[i].0) == reply
            && before + [Read(listed[i].0, reply)] == Gathered(env, Wanted(listed, uid), k + 1)
            && Asked(before + [Read(listed[i].0, reply)]) == Asked(before) + [listed[i].0]
            && Seen(before + [Read(listed[i].0, reply)], uid)
               == Seen(before, uid)
                  + if reply.Shown? && reply.uid == uid then [Info(listed[i].0, reply)] else []
  {
    hide Seen, Asked, Wanted, Gathered, Info, Time;
    WantedNext(listed, i, uid);
    GatheredNext(env, Wanted(listed, uid), k);
    TraceAppend(env, before, Read(listed[i].0, GatherReply(env, Wanted(listed, uid), k)), uid);
  }

  lemma AnsweredRead(id: string, reply: Reply)
    ensures Described(id, reply).Ok? <==> reply != Broken
    ensures Described(id, reply).Err? ==> Described(id, reply).error == InternalError
    ensures Described(id, reply).Ok? ==>
              Described(id, reply).value == if reply.Shown? then Some(Info(id, reply)) else None
  {
  }

  lemma GatheredNone(env: Env, ids: seq<string>)
    ensures Gathered(env, ids, 0) == Listings(env)
  {
  }

  lemma GatheredNext(env: Env, ids: seq<string>, k: nat)
    requires k < |ids|
    ensures Gathered(env, ids, k + 1) == Gathered(env, ids, k) + [Read(ids[k], GatherReply(env, ids, k))]
  {
  }

  lemma BrokenRead(env: Env, ids: seq<string>, k: nat, trace: seq<Event>)
    requires k < |ids| && trace == Gathered(env, ids, k + 1)
    requires Described(ids[k], GatherReply(env, ids, k)).Err?
    requires forall i :: 0 <= i < k ==> GatherReply(env, ids, i) != Broken
    ensures BreaksOff(env, ids, trace) && !AllAnswered(env, ids)
  {
  }

  /** The wanted ids of a prefix are a prefix of the wanted ids. */
  lemma {:induction false} WantedPrefix(listed: seq<Listed>, i: nat, uid: int)
    requires i <= |listed|
    ensures Wanted(listed[..i], uid) <= Wanted(listed, uid)
    decreases |listed| - i
  {
    if i == |listed| {
      assert listed[..i] == listed;
    } else {
      WantedPrefix(listed, i + 1, uid);
      assert listed[..i + 1][..i] == listed[..i];
    }
  }

  lemma WantedNext(listed: seq<Listed>, i: nat, uid: int)
    requires i < |listed|
    ensures var x := listed[i];
            Wanted(listed[..i + 1], uid)
            == Wanted(listed[..i], uid) + if x.1 == uid && (x.2 == "" || x.2 == "user") then [x.0] else []
    ensures Wanted(listed[..i + 1], uid) <= Wanted(listed, uid)
  {
    assert listed[..i + 1][..i] == listed[..i];
    WantedPrefix(listed, i + 1, uid);
  }

  lemma {:induction false} UsableValid<T>(rows: seq<T>, read: T -> Option<Listed>)
    requires forall x :: read(x).Some? ==> ValidId(read(x).value.0)
    ensures forall i :: 0 <= i < |Usable(rows, read)| ==> ValidId(Usable(rows, read)[i].0)
  {
    if rows != [] { UsableValid(rows[..|rows| - 1], read); }
  }

  lemma ListedValid(env: Env)
    ensures Listable(env).Ok? ==> forall i :: 0 <= i < |Listable(env).value| ==> ValidId(Listable(env).value[i].0)
  {
    match env.json
    case JsonEntries(entries) => UsableValid(entries, FromJson);
    case JsonUnusable => if env.table.TableRows? { UsableValid(env.table.rows, FromRow); }
    case _ =>
  }

  // ---- Choosing ----

  function GraphicalOnly(ss: seq<SessionInfo>): (r: seq<SessionInfo>)
    ensures forall i :: 0 <= i < |r| ==> Graphical(r[i]) && r[i] in ss
    ensures forall s :: s in ss && Graphical(s) ==> s in r
  {
    if ss == [] then []
    else GraphicalOnly(ss[..|ss| - 1]) + if Graphical(ss[|ss| - 1]) then [ss[|ss| - 1]] else []
  }

  /** The session asked for must exist, be the user's own and be graphical. */
  function Explicit(uid: int, id: string, reply: Reply): Result<SessionInfo, ErrorCode>
  {
    if reply.Broken? then Err(InternalError)
    else if reply.Gone? || reply.uid != uid || !Graphical(Info(id, reply)) then Err(NoSession)
    else Ok(Info(id, reply))
  }

  /** The target was shown in the trace, as the user's own and graphical. */
  ghost predicate ShownTarget(trace: seq<Event>, uid: int, s: SessionInfo)
  {
    s.uid == uid && Graphical(s)
    && exists x :: x in trace && x.Read? && x.reply.Shown? && Info(x.asked, x.reply) == s
  }

  lemma {:induction false} SeenShown(trace: seq<Event>, uid: int)
    ensures forall s :: s in Seen(trace, uid) && Graphical(s) ==> ShownTarget(trace, uid, s)
  {
    if trace != [] {
      var init := trace[..|trace| - 1];
      SeenShown(init, uid);
      assert trace == init + [trace[|trace| - 1]];
      forall s | s in Seen(trace, uid) && Graphical(s) ensures ShownTarget(trace, uid, s) {
        if s in Seen(init, uid) {
          assert ShownTarget(init, uid, s);
        } else {
          assert trace[|trace| - 1] in trace;
        }
      }
    }
  }

  ghost predicate Chosen(trace: seq<Event>, uid: int, s: SessionInfo)
  {
    var candidates := GraphicalOnly(Seen(trace, uid));
    exists i: nat :: Leads(candidates, i) && s == candidates[i]
  }

  lemma HeadChosen(trace: seq<Event>, uid: int)
    requires GraphicalOnly(Seen(trace, uid)) != []
    ensures var s := Sorted(GraphicalOnly(Seen(trace, uid)))[0]; ShownTarget(trace, uid, s) && Chosen(trace, uid, s)
  {
    var candidates := GraphicalOnly(Seen(trace, uid));
    SortedLeads(candidates);
    SeenShown(trace, uid);
    var i: nat :| Leads(candidates, i) && Sorted(candidates)[0] == candidates[i];
    assert candidates[i] in Seen(trace, uid);
  }

  /** The session that unlocking is for: the one asked for, or the chosen one of all that were listed and read. */
  ghost predicate Target(env: Env, uid: int, sessionId: Option<string>, trace: seq<Event>, s: SessionInfo)
  {
    && ShownTarget(trace, uid, s)
    && match sessionId
       case Some(id) => ValidId(id) && trace == [Read(id, env.show(0, id))]
           && Explicit(uid, id, env.show(0, id)) == Ok(s)
       case None => Listable(env).Ok? && Asked(trace) == Wanted(Listable(env).value, uid) && Chosen(trace, uid, s)
  }

  /**
   What a reply says of a session that was asked for: the user's own, of class user, in one of the
   graphical kinds.
  */
  predicate OwnGraphical(uid: int, reply: Reply)
  {
    reply.Shown? && reply.uid == uid && Lower(reply.klass) == "user"
    && (Lower(reply.kind) == "wayland" || Lower(reply.kind) == "x11" || Lower(reply.kind) == "mir")
  }

  /** The answer to the search for a target, and the reads it takes, by what the login manager answers. */
  ghost predicate Finds(
      env: Env, uid: int, sessionId: Option<string>, t: Result<SessionInfo, ErrorCode>, trace: seq<Event>)
  {
    match sessionId
    case Some(id) =>
      if !ValidId(id) then t == Err(BadRequest) && trace == []
      else
        var reply := env.show(0, id);
        && trace == [Read(id, reply)]
        && t == if reply.Broken? then Err(InternalError)
                else if OwnGraphical(uid, reply) then Ok(Info(id, reply)) else Err(NoSession)
    case None =>
      if Listable(env).Err? then t == Err(InternalError) && trace == Listings(env)
      else FindsListed(env, uid, Wanted(Listable(env).value, uid), t, trace)
  }

  ghost predicate FindsListed(
      env: Env, uid: int, ids: seq<string>, t: Result<SessionInfo, ErrorCode>, trace: seq<Event>)
  {
    if !AllAnswered(env, ids) then t == Err(InternalError) && BreaksOff(env, ids, trace)
    else
      && trace == Gathered(env, ids, |ids|)
      && if forall s :: s in Seen(trace, uid) ==> !Graphical(s) then t == Err(NoSession)
         else t.Ok? && Chosen(trace, uid, t.value)
  }

  /** With an id: that session. Without: the first of least rank among the user's graphical sessions. */
  method FindUnlockTarget(env: Env, uid: int, sessionId: Option<string>)
      returns (r: Result<SessionInfo, ErrorCode>, trace: seq<Event>)
    ensures Finds(env, uid, sessionId, r, trace)
    ensures NoUnlock(trace)
    ensures r.Ok? ==> Target(env, uid, sessionId, trace, r.value)
    ensures sessionId.Some? ==>
              var id := sessionId.value;
              if !ValidId(id) then r == Err(BadRequest) && trace == []
              else r == Explicit(uid, id, env.show(0, id)) && trace == [Read(id, env.show(0, id))]
    ensures sessionId.None? && r == Err(NoSession) ==>
              Listable(env).Ok? && Asked(trace) == Wanted(Listable(env).value, uid)
              && forall s :: s in Seen(trace, uid) ==> !Graphical(s)
    ensures r.Err? ==> r.error == BadRequest || r.error == NoSession || r.error == InternalError
  {
    hide Chosen, ValidId, Listable, Seen, Wanted, Asked, Sorted, AllAnswered, BreaksOff, Gathered;
    trace := [];
    if sessionId.Some? {
      var id := sessionId.value;
      if !ValidId(id) { return Err(BadRequest), []; }
      var info;
      info, trace := Describe(env, id, []);
      if info.Err? { return Err(info.error), trace; }
      if info.value.None? { return Err(NoSession), trace; }
      var s := info.value.value;
      if s.uid != uid { return Err(NoSession), trace; }
      if !Graphical(s) { return Err(NoSession), trace; }
      assert trace[0] in trace;
      return Ok(s), trace;
    }
    var own;
    own, trace := ListOwnSessions(env, uid);
    if own.Err? { return Err(own.error), trace; }
    var candidates := GraphicalOnly(own.value);
    if candidates == [] { return Err(NoSession), trace; }
    HeadChosen(trace, uid);
    assert candidates[0] in Seen(trace, uid) && Graphical(candidates[0]);
    r := Ok(Sorted(candidates)[0]);
  }

  // ---- Confirming ----

  predicate ShowsClear(reply: Reply) { reply.Shown? && reply.lockedHint != "yes" }

  predicate ShowsLocked(reply: Reply) { reply.Shown? && reply.lockedHint == "yes" }

  function PollReply(env: Env, id: string, before: seq<Event>, i: nat): Reply { env.show(|before| + 2 * i, id) }

  /** The trace after `n` reads, each followed by a sleep. */
  function Polled(env: Env, id: string, before: seq<Event>, n: nat): (trace: seq<Event>)
    ensures |trace| == |before| + 2 * n
  {
    if n == 0 then before
    else Polled(env, id, before, n - 1) + [Read(id, PollReply(env, id, before, n - 1)), Slept]
  }

  function LastRead(env: Env, id: string, before: seq<Event>, n: nat): seq<Event>
  {
    Polled(env, id, before, n) + [Read(id, PollReply(env, id, before, n))]
  }

  /** Read number `i` finds the session locked while there is time left. */
  predicate Waits(env: Env, id: string, before: seq<Event>, i: nat)
  {
    ShowsLocked(PollReply(env, id, before, i))
    && Time(env, LastRead(env, id, before, i)) < Time(env, before) + CONFIRM_TIMEOUT
  }

  function Verdict(reply: Reply): Result<bool, ErrorCode>
  {
    if reply.Broken? then Err(InternalError) else Ok(ShowsClear(reply))
  }

  lemma StepTakes(env: Env, id: string, before: seq<Event>, n: nat)
    requires Forward(env)
    ensures Time(env, LastRead(env, id, before, n)) >= Time(env, Polled(env, id, before, n))
    ensures Time(env, Polled(env, id, before, n + 1)) >= Time(env, LastRead(env, id, before, n)) + POLL_INTERVAL
  {
    var a, b := Polled(env, id, before, n), LastRead(env, id, before, n);
    TraceAppend(env, a, Read(id, PollReply(env, id, before, n)), 0);
    TraceAppend(env, b, Slept, 0);
    assert Polled(env, id, before, n + 1) == b + [Slept];
  }

  /** Polls until a read is not locked or the time is up; every sleep takes at least its interval. */
  method AwaitUnlocked(env: Env, id: string, before: seq<Event>)
      returns (r: Result<bool, ErrorCode>, trace: seq<Event>, n: nat)
    requires Forward(env)
    ensures !ValidId(id) ==> r == Err(BadRequest) && trace == before
    ensures ValidId(id) ==>
              && trace == LastRead(env, id, before, n) && n + 1 <= MAX_READS
              && (forall i :: 0 <= i < n ==> Waits(env, id, before, i))
              && !Waits(env, id, before, n)
              && r == Verdict(PollReply(env, id, before, n))
  {
    hide Polled, Time;
    n := 0;
    if !ValidId(id) { return Err(BadRequest), before, 0; }
    var deadline := Time(env, before) + CONFIRM_TIMEOUT;
    trace := before;
    assert Polled(env, id, before, 0) == before by { PolledNone(env, id, before); }
    while true
      invariant trace == Polled(env, id, before, n) && n < MAX_READS
      invariant forall i :: 0 <= i < n ==> Waits(env, id, before, i)
      invariant Time(env, trace) >= Time(env, before) + n as real * POLL_INTERVAL
      decreases MAX_READS - n
    {
      var info;
      info, trace := Describe(env, id, trace);
      assert trace == LastRead(env, id, before, n);
      if info.Err? { return Err(info.error), trace, n; }
      if info.value.None? { return Ok(false), trace, n; }
      if !info.value.value.locked { return Ok(true), trace, n; }
      if Time(env, trace) >= deadline { return Ok(false), trace, n; }
      trace := trace + [Slept];
      StepTakes(env, id, before, n);
      assert trace == Polled(env, id, before, n + 1) by { PolledMore(env, id, before, n); }
      n := n + 1;
    }
  }

  lemma PolledNone(env: Env, id: string, before: seq<Event>)
    ensures Polled(env, id, before, 0) == before
  {
  }

  lemma PolledMore(env: Env, id: string, before: seq<Event>, n: nat)
    ensures LastRead(env, id, before, n) + [Slept] == Polled(env, id, before, n + 1)
  {
  }

  lemma {:induction false} PolledAt(env: Env, id: string, before: seq<Event>, n: nat)
    ensures Polled(env, id, before, n)[..|before|] == before
    ensures forall i :: |before| <= i < |before| + 2 * n ==>
              Polled(env, id, before, n)[i] == if (i - |before|) % 2
                  == 0 then Read(id, PollReply(env, id, before, (i - |before|) / 2)) else Slept
  {
    if n > 0 { PolledAt(env, id, before, n - 1); }
  }

  // ---- Unlocking ----

  /** The command is given once, for the target, after a read that showed it locked. */
  ghost predicate UnlocksOnce(env: Env, uid: int, sessionId: Option<string>, trace: seq<Event>)
  {
    forall i :: 0 <= i < |trace| && trace[i].Unlock? ==>
      && (exists s :: Target(env, uid, sessionId, trace[..i], s) && s.locked && s.id == trace[i].id)
      && trace[i].status == env.unlock(i, trace[i].id)
      && (forall j :: 0 <= j < |trace| && trace[j].Unlock? ==> j == i)
  }

  /** A read that saw the hint clear, after the command for that session. */
  ghost predicate Confirmed(trace: seq<Event>)
  {
    exists i, j :: 0 <= i < j < |trace| && trace[i].Unlock? && trace[i].status == Exit(0)
                   && trace[j].Read? && trace[j].asked == trace[i].id && ShowsClear(trace[j].reply)
  }

  /** The command failed, or no read after it saw the hint clear. */
  ghost predicate Unconfirmed(trace: seq<Event>)
  {
    exists i :: 0 <= i < |trace| && trace[i].Unlock?
                && (trace[i].status != Exit(0)
                    || forall j :: i < j < |trace| && trace[j].Read? ==> !ShowsClear(trace[j].reply))
  }

  lemma UnlockFirst(
      env: Env, uid: int, sessionId: Option<string>, found: seq<Event>, target: SessionInfo, status: CommandStatus,
      rest: seq<Event>)
    requires NoUnlock(found) && NoUnlock(rest) && Target(env, uid, sessionId, found, target) && target.locked
    requires status == env.unlock(|found|, target.id)
    ensures UnlocksOnce(env, uid, sessionId, found + [Unlock(target.id, status)] + rest)
  {
    hide Target;
    var trace := found + [Unlock(target.id, status)] + rest;
    forall i | 0 <= i < |found| ensures !trace[i].Unlock? { assert trace[i] == found[i] && found[i] in found; }
    forall i | |found| < i < |trace| ensures !trace[i].Unlock? {
      var k := i - |found| - 1;
      assert trace[i] == rest[k] && rest[k] in rest;
    }
    assert trace[..|found|] == found;
  }

  /** The events of a poll: reads of one session that find it locked, sleeps, and the last read. */
  lemma PollEvents(env: Env, id: string, before: seq<Event>, n: nat)
    requires forall i :: 0 <= i < n ==> Waits(env, id, before, i)
    ensures var trace := LastRead(env, id, before, n);
            && trace[..|before|] == before && trace[|trace| - 1] == Read(id, PollReply(env, id, before, n))
            && forall i :: |before| <= i < |trace| - 1 ==>
                 trace[i] == Slept || (trace[i].Read? && ShowsLocked(trace[i].reply))
  {
    PolledAt(env, id, before, n);
    var trace := LastRead(env, id, before, n);
    var polled := Polled(env, id, before, n);
    forall i | |before| <= i < |trace| - 1 ensures trace[i] == Slept
        || (trace[i].Read? && ShowsLocked(trace[i].reply)) {
      assert trace[i] == polled[i];
      var k := (i - |before|) / 2;
      if (i - |before|) % 2 == 0 { assert Waits(env, id, before, k); }
    }
    assert trace[..|before|] == before;
  }

  /** What a poll, and perhaps a read after it, make of the trace. */
  lemma PollConcludes(
      env: Env, uid: int, sessionId: Option<string>, found: seq<Event>, target: SessionInfo, n: nat, more: seq<Event>)
    requires NoUnlock(found) && Target(env, uid, sessionId, found, target) && target.locked && NoUnlock(more)
    requires env.unlock(|found|, target.id) == Exit(0)
    requires var before := found + [Unlock(target.id, Exit(0))]; forall i :: 0 <= i < n ==>
              Waits(env, target.id, before, i)
    ensures var before := found + [Unlock(target.id, Exit(0))];
            var trace := LastRead(env, target.id, before, n) + more;
            && UnlocksOnce(env, uid, sessionId, trace)
            && (forall i :: 0 <= i < |trace| && trace[i].Unlock? ==> |trace| == i + 2 + 2 * n + |more|)
            && (ShowsClear(PollReply(env, target.id, before, n)) ==> Confirmed(trace))
            && (!ShowsClear(PollReply(env, target.id, before, n)) && more == [] ==> Unconfirmed(trace))
  {
    hide Target;
    var id := target.id;
    var before := found + [Unlock(id, Exit(0))];
    var polled := LastRead(env, id, before, n);
    var trace := polled + more;
    PollEvents(env, id, before, n);
    hide LastRead, PollReply, ShowsLocked;
    var rest := polled[|before|..];
    assert polled == before + rest;
    assert NoUnlock(rest + more);
    assert trace == found + [Unlock(id, Exit(0))] + (rest + more);
    UnlockFirst(env, uid, sessionId, found, target, Exit(0), rest + more);
    assert trace[|found|].Unlock?;
    assert trace[|polled| - 1] == polled[|polled| - 1];
  }

  lemma NoneYet(env: Env, uid: int, sessionId: Option<string>, trace: seq<Event>)
    requires NoUnlock(trace)
    ensures UnlocksOnce(env, uid, sessionId, trace) && forall i :: 0 <= i < |trace| ==> !trace[i].Unlock?
  {
    assert forall i :: 0 <= i < |trace| ==> trace[i] in trace;
  }

  // ---- The whole answer ----

  /** Polling stops at read number `n`: the first that is not locked or comes too late. */
  ghost predicate StopsAt(env: Env, id: string, before: seq<Event>, n: nat)
  {
    (forall i :: 0 <= i < n ==> Waits(env, id, before, i)) && !Waits(env, id, before, n)
  }

  /** What the login manager's answers make of the command given for a locked target. */
  ghost predicate Commanded(
      env: Env, target: SessionInfo, found: seq<Event>, r: Result<UnlockResult, ErrorCode>, trace: seq<Event>)
  {
    var id, status := target.id, env.unlock(|found|, target.id);
    var before := found + [Unlock(id, status)];
    if status.CannotRun? then r == Err(InternalError) && trace == before
    else if status.code != 0 then r == Err(UnlockFailed) && trace == before
    else if !ValidId(id) then r == Err(BadRequest) && trace == before
    else exists n: nat :: n < MAX_READS && StopsAt(env, id, before, n) && Confirms(env, target, before, n, r, trace)
  }

  /** What the last read of the poll, and the one after a clear one, make of it. */
  ghost predicate Confirms(
      env: Env, target: SessionInfo, before: seq<Event>, n: nat, r: Result<UnlockResult, ErrorCode>, trace: seq<Event>)
  {
    var id := target.id;
    var reply, polled := PollReply(env, id, before, n), LastRead(env, id, before, n);
    if reply.Broken? then r == Err(InternalError) && trace == polled
    else if !ShowsClear(reply) then r == Err(UnlockFailed) && trace == polled
    else
      var last := env.show(|polled|, id);
      && trace == polled + [Read(id, last)]
      && match last
         case Broken => r == Err(InternalError)
         case Gone => r == Ok(UnlockResult(target, true, true))
         case Shown(_, _, _, _, _, _) => r == Ok(UnlockResult(Info(id, last), true, true))
  }

  /** The answer to an unlock request and everything it does, by what the login manager answers. */
  ghost predicate Unlocks(
      env: Env, uid: int, sessionId: Option<string>, r: Result<UnlockResult, ErrorCode>, trace: seq<Event>)
  {
    exists t, found ::
      && Finds(env, uid, sessionId, t, found)
      && match t
         case Err(e) => r == Err(e) && trace == found
         case Ok(target) =>
           if target.locked then Commanded(env, target, found, r, trace)
           else r == Ok(UnlockResult(target, false, true)) && trace == found
  }

  lemma LeadsOnce(ss: seq<SessionInfo>, i: nat, j: nat)
    requires Leads(ss, i) && Leads(ss, j)
    ensures i == j
  {
    hide Before;
    var first, second := ss[i], ss[j];
  }

  lemma BreaksOnce(env: Env, ids: seq<string>, a: seq<Event>, b: seq<Event>)
    requires BreaksOff(env, ids, a) && BreaksOff(env, ids, b)
    ensures a == b
  {
    hide Gathered;
    var i: nat :| i < |ids| && GatherReply(env, ids, i) == Broken && a == Gathered(env, ids, i + 1)
                  && forall k :: 0 <= k < i ==> GatherReply(env, ids, k) != Broken;
    var j: nat :| j < |ids| && GatherReply(env, ids, j) == Broken && b == Gathered(env, ids, j + 1)
                  && forall k :: 0 <= k < j ==> GatherReply(env, ids, k) != Broken;
    assert i == j;
  }

  lemma FindsOnce(
      env: Env, uid: int, sessionId: Option<string>, t: Result<SessionInfo, ErrorCode>, a: seq<Event>,
      u: Result<SessionInfo, ErrorCode>, b: seq<Event>)
    requires Finds(env, uid, sessionId, t, a) && Finds(env, uid, sessionId, u, b)
    ensures t == u && a == b
  {
    hide Seen, Gathered, GraphicalOnly, AllAnswered, BreaksOff, Listable, Wanted;
    if sessionId.None? && Listable(env).Ok? {
      var ids := Wanted(Listable(env).value, uid);
      if !AllAnswered(env, ids) {
        BreaksOnce(env, ids, a, b);
      } else if t.Ok? {
        var ss := GraphicalOnly(Seen(a, uid));
        var i: nat :| Leads(ss, i) && t.value == ss[i];
        var j: nat :| Leads(ss, j) && u.value == ss[j];
        hide Leads;
        LeadsOnce(ss, i, j);
      }
    }
  }

  lemma CommandedOnce(
      env: Env, target: SessionInfo, found: seq<Event>, r: Result<UnlockResult, ErrorCode>, a: seq<Event>,
      q: Result<UnlockResult, ErrorCode>, b: seq<Event>)
    requires Commanded(env, target, found, r, a) && Commanded(env, target, found, q, b)
    ensures r == q && a == b
  {
    hide Waits, LastRead, PollReply, ValidId;
    var id, status := target.id, env.unlock(|found|, target.id);
    var before := found + [Unlock(id, status)];
    if status == Exit(0) && ValidId(id) {
      var n: nat :| n < MAX_READS && StopsAt(env, id, before, n) && Confirms(env, target, before, n, r, a);
      var m: nat :| m < MAX_READS && StopsAt(env, id, before, m) && Confirms(env, target, before, m, q, b);
      assert n == m;
    }
  }

  /** The login manager's answers determine the answer and every command. */
  lemma UnlocksOneWay(
      env: Env, uid: int, sessionId: Option<string>, r: Result<UnlockResult, ErrorCode>, a: seq<Event>,
      q: Result<UnlockResult, ErrorCode>, b: seq<Event>)
    requires Unlocks(env, uid, sessionId, r, a) && Unlocks(env, uid, sessionId, q, b)
    ensures r == q && a == b
  {
    hide Finds, Commanded;
    var t, found :|
      Finds(env, uid, sessionId, t, found)
      && match t
         case Err(e) => r == Err(e) && a == found
         case Ok(target) =>
           if target.locked then Commanded(env, target, found, r, a)
           else r == Ok(UnlockResult(target, false, true)) && a == found;
    var u, other :|
      Finds(env, uid, sessionId, u, other)
      && match u
         case Err(e) => q == Err(e) && b == other
         case Ok(target) =>
           if target.locked then Commanded(env, target, other, q, b)
           else q == Ok(UnlockResult(target, false, true)) && b == other;
    FindsOnce(env, uid, sessionId, t, found, u, other);
    if t.Ok? && t.value.locked { CommandedOnce(env, t.value, found, r, a, q, b); }
  }

  lemma CommandFailed(
      env: Env, uid: int, sessionId: Option<string>, found: seq<Event>, target: SessionInfo, status: CommandStatus)
    requires NoUnlock(found) && Target(env, uid, sessionId, found, target) && target.locked
    requires status == env.unlock(|found|, target.id)
    ensures var trace := found + [Unlock(target.id, status)];
            && UnlocksOnce(env, uid, sessionId, trace)
            && (status != Exit(0) ==> Unconfirmed(trace))
            && (forall i :: 0 <= i < |trace| && trace[i].Unlock? ==> i == |found|)
  {
    UnlockFirst(env, uid, sessionId, found, target, status, []);
    var trace := found + [Unlock(target.id, status)];
    assert trace + [] == trace;
    assert trace[|found|].Unlock?;
    hide Target;
  }

  /** The session asked for is not there or not one to unlock, or none of those listed and read is. */
  ghost predicate NoTarget(env: Env, uid: int, sessionId: Option<string>, trace: seq<Event>)
  {
    match sessionId
    case Some(id) => Explicit(uid, id, env.show(0, id)) == Err(NoSession)
    case None =>
      Listable(env).Ok? && Asked(trace) == Wanted(Listable(env).value, uid)
      && forall s :: s in Seen(trace, uid) ==> !Graphical(s)
  }

  method UnlockSession(env: Env, uid: int, sessionId: Option<string>)
      returns (r: Result<UnlockResult, ErrorCode>, trace: seq<Event>)
    requires Forward(env)
    ensures Unlocks(env, uid, sessionId, r, trace)
    ensures UnlocksOnce(env, uid, sessionId, trace)
    ensures r.Ok? ==> r.value.unlocked
    ensures r.Ok? && r.value.wasLocked ==> Confirmed(trace)
    ensures r.Ok? && !r.value.wasLocked ==>
              NoUnlock(trace) && Target(env, uid, sessionId, trace, r.value.session) && !r.value.session.locked
    ensures r == Err(UnlockFailed) ==> Unconfirmed(trace)
    ensures r == Err(NoSession) ==> NoUnlock(trace) && NoTarget(env, uid, sessionId, trace)
    ensures sessionId.Some? && !ValidId(sessionId.value) ==> r == Err(BadRequest) && trace == []
    ensures forall i :: 0 <= i < |trace| && trace[i].Unlock? ==> |trace| <= i + 1 + 2 * MAX_READS
  {
    hide Target, Confirmed, Unconfirmed, UnlocksOnce, ValidId, LastRead, Waits, Chosen, Listable, Explicit, PollReply,
         Seen, Asked, Wanted;
    var target;
    target, trace := FindUnlockTarget(env, uid, sessionId);
    NoneYet(env, uid, sessionId, trace);
    if target.Err? { return Err(target.error), trace; }
    if !target.value.locked { return Ok(UnlockResult(target.value, false, true)), trace; }
    var id := target.value.id;
    var status := env.unlock(|trace|, id);
    ghost var found := trace;
    trace := trace + [Unlock(id, status)];
    if status != Exit(0) {
      CommandFailed(env, uid, sessionId, found, target.value, status);
      r := Err(if status.CannotRun? then InternalError else UnlockFailed);
      return;
    }
    var confirmed, n;
    ghost var before := trace;
    confirmed, trace, n := AwaitUnlocked(env, id, trace);
    if ValidId(id) {
      PollConcludes(env, uid, sessionId, found, target.value, n, []);
      assert trace + [] == trace;
    } else {
      CommandFailed(env, uid, sessionId, found, target.value, status);
    }
    if confirmed.Err? || !confirmed.value {
      r := Err(if confirmed.Err? then confirmed.error else UnlockFailed);
      assert ValidId(id) ==> Confirms(env, target.value, before, n, r, trace);
      assert Commanded(env, target.value, found, r, trace);
      return;
    }
    var final;
    ghost var polled := trace;
    final, trace := Describe(env, id, trace);
    PollConcludes(env, uid, sessionId, found, target.value, n, [Read(id, env.show(|polled|, id))]);
    AnsweredRead(id, env.show(|polled|, id));
    if final.Err? {
      r := Err(final.error);
      assert Confirms(env, target.value, before, n, r, trace);
      assert Commanded(env, target.value, found, r, trace);
      return;
    }
    r := Ok(UnlockResult(if final.value.Some? then final.value.value else target.value, true, true));
    assert Confirms(env, target.value, before, n, r, trace);
    assert Commanded(env, target.value, found, r, trace);
  }

  // ---- What the names stand for ----

  /** What each property of a shown session is read as. */
  lemma ShownMeans(asked: string, r: Reply)
    requires r.Shown?
    ensures var s := Info(asked, r);
            && (s.active <==> r.active == "yes") && (s.locked <==> ShowsLocked(r)) && (!s.locked <==> ShowsClear(r))
            && s.uid == r.uid && s.id == (if r.id == "" then asked else r.id)
            && (Graphical(s) <==> Lower(r.klass) == "user" && Lower(r.kind) in {"wayland", "x11", "mir"})
  {
  }

  /**
   A locked session comes first, then an active one, then the one with the lower number; a name counts as
   a million.
  */
  lemma BeforeExactly(a: SessionInfo, b: SessionInfo, n: nat, m: nat)
    requires a.id == Dec(n) || (a.id != "" && !IsDigit(a.id[0]) && n == 1000000)
    requires b.id == Dec(m) || (b.id != "" && !IsDigit(b.id[0]) && m == 1000000)
    ensures Before(a, b) <==>
              || (a.locked && !b.locked)
              || (a.locked == b.locked && a.active && !b.active)
              || (a.locked == b.locked && a.active == b.active && n < m)
  {
    ParseDec(n);
    ParseDec(m);
  }

  /** A session id has one to 32 letters and digits, and perhaps a line feed behind them. */
  lemma IdsExactly(core: string)
    requires forall i :: 0 <= i < |core| ==> core[i] != '\n'
    ensures ValidId(core) <==> PlainId(core)
    ensures ValidId(core + "\n") <==> PlainId(core)
    ensures PlainId(core) ==> 1 <= |core| <= 32
    ensures 1 <= |core| <= 32 ==>
              (PlainId(core) <==>
               forall i :: 0 <= i < |core| ==>
                 '0' <= core[i] <= '9' || 'a' <= core[i] <= 'z' || 'A' <= core[i] <= 'Z')
  {
    assert (core + "\n")[..|core|] == core;
    assert (core + "\n")[|core|] == '\n';
  }

  /** A row is used exactly when it can be read. */
  lemma {:induction false} UsableExactly<T>(rows: seq<T>, read: T -> Option<Listed>, x: Listed)
    ensures x in Usable(rows, read) <==> exists i :: 0 <= i < |rows| && read(rows[i]) == Some(x)
  {
    if rows != [] {
      var init := rows[..|rows| - 1];
      UsableExactly(init, read, x);
      if i :| 0 <= i < |rows| && read(rows[i]) == Some(x) {
        assert i < |init| ==> read(init[i]) == Some(x);
      }
    }
  }

  /** The ids asked for are those listed for the user with no class or class user. */
  lemma {:induction false} WantedExactly(listed: seq<Listed>, uid: int, id: string)
    ensures id in Wanted(listed, uid) <==> (id, uid, "") in listed || (id, uid, "user") in listed
  {
    if listed != [] {
      WantedExactly(listed[..|listed| - 1], uid, id);
      assert listed == listed[..|listed| - 1] + [listed[|listed| - 1]];
    }
  }

  /** What is listed: entries with a valid id and a number for the user, or rows that begin with both. */
  lemma ListableExactly(env: Env, id: string, uid: int, klass: string)
    ensures Listable(env).Ok? <==> env.json.JsonEntries? || (env.json.JsonUnusable? && env.table.TableRows?)
    ensures env.json.JsonEntries? ==>
              ((id, uid, klass) in Listable(env).value <==>
               exists i :: 0 <= i < |env.json.entries| && ListsEntry(env.json.entries[i], id, uid, klass))
    ensures env.json.JsonUnusable? && env.table.TableRows? ==>
              ((id, uid, klass) in Listable(env).value <==>
               exists i :: 0 <= i < |env.table.rows| && ListsRow(env.table.rows[i], id, uid, klass))
  {
    if env.json.JsonEntries? {
      UsableExactly(env.json.entries, FromJson, (id, uid, klass));
      assert forall e :: ListsEntry(e, id, uid, klass) <==> FromJson(e) == Some((id, uid, klass));
    } else if env.json.JsonUnusable? && env.table.TableRows? {
      UsableExactly(env.table.rows, FromRow, (id, uid, klass));
      assert forall row :: ListsRow(row, id, uid, klass) <==> FromRow(row) == Some((id, uid, klass));
    }
    hide Usable, ValidId, Trim, ParseNat;
  }

  predicate ListsEntry(e: JsonEntry, id: string, uid: int, klass: string)
  {
    e.Object? && Trim(e.session) == id && ValidId(id) && e.uid == Some(uid) && e.klass == klass
  }

  predicate ListsRow(fields: seq<string>, id: string, uid: int, klass: string)
  {
    |fields| >= 2 && fields[0] == id && ValidId(id) && fields[1] != "" && AllDigits(fields[1])
    && ParseNat(fields[1]) == uid && klass == ""
  }

  lemma {:induction false} PolledTime(env: Env, id: string, before: seq<Event>, n: nat)
    requires forall k: nat :: env.delay(k) == 0.0
    ensures Time(env, Polled(env, id, before, n)) == Time(env, before) + 0.2 * n as real
  {
    if n > 0 {
      PolledTime(env, id, before, n - 1);
      var init := Polled(env, id, before, n - 1);
      var read := Read(id, PollReply(env, id, before, n - 1));
      TraceAppend(env, init, read, 0);
      TraceAppend(env, init + [read], Slept, 0);
      assert Polled(env, id, before, n) == init + [read] + [Slept];
      hide Polled, Time;
    }
  }

  /** A session that stays locked is read 26 times in five seconds when nothing but the sleeps takes time. */
  lemma StaysLocked(env: Env, id: string, before: seq<Event>)
    requires forall k: nat :: env.delay(k) == 0.0
    requires forall i: nat :: ShowsLocked(PollReply(env, id, before, i))
    ensures StopsAt(env, id, before, 25)
    ensures Time(env, LastRead(env, id, before, 25)) == Time(env, before) + 5.0
  {
    hide Polled, Time, PollReply;
    forall i: nat ensures Time(env, LastRead(env, id, before, i)) == Time(env, before) + 0.2 * i as real {
      PolledTime(env, id, before, i);
      TraceAppend(env, Polled(env, id, before, i), Read(id, PollReply(env, id, before, i)), 0);
    }
  }
}
