/**
 Publishing the store for the widgets, at most once per interval. What is published is the store's
 content with the second at which it was serialized. A publication reads the clock up to three times;
 `Ticks` are the readings. Timers that were set and neither fired nor were cleared are kept with the
 time from which they may fire; `pending` is the one the program remembers.
 */
module WidgetBridge {
  import opened Prelude

  const MIN_PUBLISH_INTERVAL_MS := 2000

  datatype Ticks = Ticks(stamp: int, first: int, second: int)

  datatype Payload = Payload(content: string, updatedAt: int)

  datatype Write = Write(at: int, payload: Payload)

  /** `content` is what the store holds for the widgets, `syncs` how many mirrors are running. */
  datatype State = State(
    content: string, lastPublished: Option<Payload>, lastPublishedAt: int, pending: Option<nat>,
    timers: map<nat, int>, timersSet: nat, syncs: nat, writes: seq<Write>)

  function Start(content: string): State { State(content, None, 0, None, map[], 0, 0, []) }

  // ---- Steps ----

  /** Milliseconds to whole seconds, rounding down. */
  function Serialized(content: string, now: int): Payload { Payload(content, now / 1000) }

  function Published(s: State, t: Ticks): State
  {
    var serialized := Serialized(s.content, t.stamp);
    if s.lastPublished == Some(serialized) then s
    else
      var elapsed := t.first - s.lastPublishedAt;
      if elapsed < MIN_PUBLISH_INTERVAL_MS then
        if s.pending.Some? then s
        else s.(pending := Some(s.timersSet), timersSet := s.timersSet + 1,
                timers := s.timers[s.timersSet := t.first + (MIN_PUBLISH_INTERVAL_MS - elapsed)])
      else s.(lastPublished := Some(serialized), lastPublishedAt := t.second,
              writes := s.writes + [Write(t.second, serialized)])
  }

  /** One publication for every mirror that listens. */
  function PublishedEach(s: State, ts: seq<Ticks>): State
  {
    if ts == [] then s else Published(PublishedEach(s, ts[..|ts| - 1]), ts[|ts| - 1])
  }

  function Fired(s: State, id: nat, t: Ticks): State
  {
    Published(s.(timers := s.timers - {id}, pending := None), t)
  }

  function Started(s: State, t: Ticks): State { var u := Published(s, t); u.(syncs := u.syncs + 1) }

  function Stopped(s: State): State
    requires s.syncs > 0
  {
    if s.pending.None? then s.(syncs := s.syncs - 1)
    else s.(syncs := s.syncs - 1, timers := s.timers - {s.pending.value}, pending := None)
  }

  datatype Action =
    | Change(content: string, each: seq<Ticks>)
    | Fire(id: nat, ticks: Ticks)
    | StartSync(ticks: Ticks)
    | StopSync

  /** At most `maxSyncs` mirrors run at a time. */
  predicate Enabled(maxSyncs: nat, s: State, a: Action)
  {
    match a
    case Change(_, each) => |each| == s.syncs
    case Fire(id, _) => id in s.timers
    case StartSync(_) => s.syncs < maxSyncs
    case StopSync => s.syncs > 0
  }

  function Step(maxSyncs: nat, s: State, a: Action): State
    requires Enabled(maxSyncs, s, a)
  {
    match a
    case Change(content, each) => PublishedEach(s.(content := content), each)
    case Fire(id, ticks) => Fired(s, id, ticks)
    case StartSync(ticks) => Started(s, ticks)
    case StopSync => Stopped(s)
  }

  predicate Runs(maxSyncs: nat, s: State, run: seq<Action>, last: State)
    decreases |run|
  {
    if run == [] then last == s
    else Enabled(maxSyncs, s, run[0]) && Runs(maxSyncs, Step(maxSyncs, s, run[0]), run[1..], last)
  }

  // ---- Invariants ----

  /** Within one publication the clock does not go back. */
  predicate Steady(t: Ticks) { t.stamp <= t.first <= t.second }

  predicate SteadyAction(a: Action)
  {
    match a
    case Change(_, each) => forall i :: 0 <= i < |each| ==> Steady(each[i])
    case Fire(_, ticks) => Steady(ticks)
    case StartSync(ticks) => Steady(ticks)
    case StopSync => true
  }

  /** The one outstanding timer is the remembered one. */
  predicate OneTimer(s: State)
  {
    s.timers.Keys == if s.pending.Some? then {s.pending.value} else {}
  }

  /** The variables remember the last write. */
  predicate Remembered(s: State)
  {
    if s.writes == [] then s.lastPublished.None? && s.lastPublishedAt == 0
    else
      var w := s.writes[|s.writes| - 1];
      s.lastPublished == Some(w.payload) && s.lastPublishedAt == w.at
  }

  ghost predicate Spaced(s: State)
  {
    forall i, j :: 0 <= i < j < |s.writes| ==> s.writes[i].at + MIN_PUBLISH_INTERVAL_MS <= s.writes[j].at
  }

  predicate UpToDate(s: State) { s.lastPublished.Some? && s.lastPublished.value.content == s.content }

  /** What the widgets see is current, or a timer will see to it. */
  predicate NothingLost(s: State)
  {
    s.syncs > 0 ==> UpToDate(s) || s.pending.Some?
  }

  ghost predicate Inv(s: State) { OneTimer(s) && Remembered(s) }

  lemma PublishKeeps(s: State, t: Ticks)
    requires Inv(s)
    ensures Inv(Published(s, t)) && Published(s, t).content == s.content && Published(s, t).syncs == s.syncs
    ensures NothingLost(Published(s, t))
    ensures Spaced(s) && Steady(t) ==> Spaced(Published(s, t))
  {
  }

  lemma {:induction false} EachKeeps(s: State, ts: seq<Ticks>)
    requires Inv(s)
    ensures var u := PublishedEach(s, ts);
            && Inv(u) && u.content == s.content && u.syncs == s.syncs
            && (ts != [] ==> NothingLost(u))
            && (Spaced(s) && (forall i :: 0 <= i < |ts| ==> Steady(ts[i])) ==> Spaced(u))
  {
    hide Inv, Spaced, NothingLost, Published;
    if ts != [] {
      EachKeeps(s, ts[..|ts| - 1]);
      PublishKeeps(PublishedEach(s, ts[..|ts| - 1]), ts[|ts| - 1]);
    }
  }

  lemma FireKeeps(s: State, id: nat, t: Ticks)
    requires Inv(s) && id in s.timers
    ensures Inv(Fired(s, id, t)) && NothingLost(Fired(s, id, t))
    ensures Spaced(s) && Steady(t) ==> Spaced(Fired(s, id, t))
  {
    var u := s.(timers := s.timers - {id}, pending := None);
    assert u.timers.Keys == {};
    PublishKeeps(u, t);
    hide Published;
  }

  lemma StepKeeps(maxSyncs: nat, s: State, a: Action)
    requires Inv(s) && Enabled(maxSyncs, s, a)
    ensures Inv(Step(maxSyncs, s, a))
    ensures Spaced(s) && SteadyAction(a) ==> Spaced(Step(maxSyncs, s, a))
    ensures !a.StopSync? ==> NothingLost(Step(maxSyncs, s, a))
  {
    match a
    case Change(content, each) => EachKeeps(s.(content := content), each); hide PublishedEach;
    case Fire(id, ticks) => FireKeeps(s, id, ticks); hide Fired;
    case StartSync(ticks) => PublishKeeps(s, ticks); hide Published;
    case StopSync => if s.pending.Some? { assert (s.timers - {s.pending.value}).Keys == {}; }
  }

  ghost predicate Reachable(maxSyncs: nat, s: State)
  {
    exists content, run :: Runs(maxSyncs, Start(content), run, s)
  }

  lemma {:induction false} RunKeeps(maxSyncs: nat, s: State, run: seq<Action>, last: State)
    requires Inv(s) && Runs(maxSyncs, s, run, last)
    ensures Inv(last)
    ensures Spaced(s) && (forall i :: 0 <= i < |run| ==> SteadyAction(run[i])) ==> Spaced(last)
    ensures maxSyncs <= 1 && s.syncs <= 1 && NothingLost(s) ==> NothingLost(last)
    decreases |run|
  {
    hide Inv, Spaced, SteadyAction;
    if run != [] {
      StepKeeps(maxSyncs, s, run[0]);
      if maxSyncs <= 1 && s.syncs <= 1 { SyncsBounded(maxSyncs, s, run[0]); }
      hide Step, NothingLost;
      RunKeeps(maxSyncs, Step(maxSyncs, s, run[0]), run[1..], last);
    }
  }

  lemma SyncsBounded(maxSyncs: nat, s: State, a: Action)
    requires Inv(s) && Enabled(maxSyncs, s, a) && maxSyncs <= 1 && s.syncs <= 1
    ensures Step(maxSyncs, s, a).syncs <= 1
    ensures a.StopSync? ==> NothingLost(Step(maxSyncs, s, a))
  {
    match a
    case Change(content, each) => EachKeeps(s.(content := content), each); hide PublishedEach;
    case _ =>
  }

  // ---- Theorems ----

  /** Any two writes are at least the interval apart. */
  lemma WritesSpaced(maxSyncs: nat, content: string, run: seq<Action>, last: State)
    requires Runs(maxSyncs, Start(content), run, last) && forall i :: 0 <= i < |run| ==> SteadyAction(run[i])
    ensures Spaced(last)
  {
    RunKeeps(maxSyncs, Start(content), run, last);
  }

  /** At most one timer is outstanding, and it is the one the program remembers. */
  lemma AtMostOneTimer(maxSyncs: nat, s: State)
    requires Reachable(maxSyncs, s)
    ensures s.timers.Keys == if s.pending.Some? then {s.pending.value} else {}
  {
    var content, run :| Runs(maxSyncs, Start(content), run, s);
    RunKeeps(maxSyncs, Start(content), run, s);
  }

  predicate Flushed(s: State) { UpToDate(s) && s.pending.None? }

  /**
   A timer that fires leaves the content published and nothing pending exactly when an interval has
   passed since the last write, or the last write had the same content in the same second.
   */
  lemma TimerFlushes(maxSyncs: nat, s: State, id: nat, t: Ticks)
    requires Reachable(maxSyncs, s) && id in s.timers
    ensures Flushed(Fired(s, id, t)) <==>
              t.first >= s.lastPublishedAt + MIN_PUBLISH_INTERVAL_MS
              || s.lastPublished == Some(Serialized(s.content, t.stamp))
  {
    var content, run :| Runs(maxSyncs, Start(content), run, s);
    RunKeeps(maxSyncs, Start(content), run, s);
  }

  /** With no change in between, the second timer that fires when it is due has published everything. */
  lemma TwoTimersFlush(maxSyncs: nat, s: State, id: nat, t: Ticks, next: nat, u: Ticks)
    requires Reachable(maxSyncs, s) && id in s.timers
    requires var mid := Fired(s, id, t); next in mid.timers && u.first >= mid.timers[next]
    ensures Flushed(Fired(Fired(s, id, t), next, u))
  {
    var content, run :| Runs(maxSyncs, Start(content), run, s);
    RunKeeps(maxSyncs, Start(content), run, s);
    hide Runs;
  }

  // ---- Skipping what the widgets have seen ----

  /**
   A publication of what the widgets have already does nothing exactly in the same second, or while a
   timer is set.
   */
  lemma SkipsExactly(s: State, t: Ticks)
    requires UpToDate(s)
    ensures Published(s, t) == s <==>
              || t.stamp / 1000 == s.lastPublished.value.updatedAt
              || (s.pending.Some? && t.first < s.lastPublishedAt + MIN_PUBLISH_INTERVAL_MS)
  {
    var next := Published(s, t);
    if next.writes != s.writes { assert |next.writes| == |s.writes| + 1; }
  }

  /** New content is written exactly when an interval has passed since the last write; else a timer is set. */
  lemma PublishesExactly(s: State, t: Ticks)
    requires !UpToDate(s)
    ensures var next := Published(s, t);
            && (t.first >= s.lastPublishedAt + 2000 ==>
                  next.writes == s.writes + [Write(t.second, Payload(s.content, t.stamp / 1000))] && UpToDate(next))
            && (t.first < s.lastPublishedAt + 2000 ==> next.writes == s.writes && next.pending.Some?)
  {
  }

  /** A timer that is set is due two seconds after the last write. */
  lemma DueOnTime(s: State, t: Ticks)
    requires Published(s, t).pending != s.pending
    ensures s.pending.None? && Published(s, t).pending == Some(s.timersSet)
    ensures Published(s, t).timers == s.timers[s.timersSet := s.lastPublishedAt + 2000]
  {
  }

  /** It is written again exactly when an interval has passed and the second is another. */
  lemma RewritesExactly(s: State, t: Ticks)
    requires UpToDate(s)
    ensures Published(s, t).writes != s.writes <==>
              t.stamp / 1000 != s.lastPublished.value.updatedAt
                  && t.first >= s.lastPublishedAt + MIN_PUBLISH_INTERVAL_MS
  {
    var next := Published(s, t);
    if next.writes != s.writes { assert |next.writes| == |s.writes| + 1; }
  }

  lemma EachOfTwo(s: State, t: Ticks, u: Ticks)
    ensures PublishedEach(s, [t]) == Published(s, t)
    ensures PublishedEach(s, [t, u]) == Published(Published(s, t), u)
  {
    assert [t, u][..1] == [t] && [t][..0] == [];
    hide Published;
  }

  function At(t: int): Ticks { Ticks(t, t, t) }

  /** Two writes of one content in a row: a store change that changes nothing for the widgets, an interval later. */
  lemma UnchangedRewritten(content: string, t: int) returns (run: seq<Action>, s: State)
    requires t >= MIN_PUBLISH_INTERVAL_MS
    ensures run == [StartSync(At(t)), Change(content, [At(t + MIN_PUBLISH_INTERVAL_MS)])]
    ensures Runs(1, Start(content), run, s)
    ensures s.writes == [Write(t, Serialized(content, t)),
                         Write(t + MIN_PUBLISH_INTERVAL_MS, Serialized(content, t + MIN_PUBLISH_INTERVAL_MS))]
  {
    var later := [At(t + MIN_PUBLISH_INTERVAL_MS)];
    var begin, change := StartSync(At(t)), Change(content, later);
    run := [begin, change];
    var a := Start(content);
    var b := Step(1, a, begin);
    assert b.writes == [Write(t, Serialized(content, t))] && b.syncs == 1;
    EachOfTwo(b, later[0], later[0]);
    s := Step(1, b, change);
    assert b.(content := content) == b;
    assert Runs(1, b, [change], s);
    assert run[1..] == [change];
  }

  /** With two mirrors, stopping one clears the timer that the other relies on. */
  lemma TwoSyncsLose(maxSyncs: nat, t: int) returns (run: seq<Action>, s: State)
    requires maxSyncs >= 2 && t >= MIN_PUBLISH_INTERVAL_MS
    ensures run == [StartSync(At(t)), StartSync(At(t)), Change("x", [At(t + 1), At(t + 1)]), StopSync]
    ensures Runs(maxSyncs, Start(""), run, s) && s.syncs == 1 && !NothingLost(s)
  {
    var twice := [At(t + 1), At(t + 1)];
    run := [StartSync(At(t)), StartSync(At(t)), Change("x", twice), StopSync];
    var a := Start("");
    var b := Step(maxSyncs, a, run[0]);
    var c := Step(maxSyncs, b, run[1]);
    EachOfTwo(c.(content := "x"), At(t + 1), At(t + 1));
    var d := Step(maxSyncs, c, run[2]);
    assert c.lastPublished == Some(Serialized("", t)) && c.lastPublishedAt == t && c.syncs == 2 && c.pending.None?;
    assert d.pending.Some? && d.lastPublished == c.lastPublished && d.content == "x" && d.syncs == 2;
    s := Step(maxSyncs, d, StopSync);
    assert Runs(maxSyncs, d, [StopSync], s);
    assert run[2..][1..] == [StopSync] && Runs(maxSyncs, c, run[2..], s);
    assert run[1..][1..] == run[2..] && Runs(maxSyncs, b, run[1..], s);
  }

  /** No change is ever lost exactly when at most one mirror runs at a time. */
  lemma NothingLostExactly(maxSyncs: nat)
    ensures (forall s :: Reachable(maxSyncs, s) ==> NothingLost(s)) <==> maxSyncs <= 1
  {
    if maxSyncs <= 1 {
      forall s | Reachable(maxSyncs, s) ensures NothingLost(s) {
        var content, run :| Runs(maxSyncs, Start(content), run, s);
        RunKeeps(maxSyncs, Start(content), run, s);
      }
    } else {
      var run, s := TwoSyncsLose(maxSyncs, MIN_PUBLISH_INTERVAL_MS);
      assert Reachable(maxSyncs, s);
    }
    hide Reachable, NothingLost;
  }

  // ---- The module's variables ----

  class Bridge {
    var content: string
    var lastPublished: Option<Payload>
    var lastPublishedAt: int
    var pending: Option<nat>
    var timers: map<nat, int>
    var timersSet: nat
    var syncs: nat
    var writes: seq<Write>

    ghost function Snapshot(): State
      reads this
    {
      State(content, lastPublished, lastPublishedAt, pending, timers, timersSet, syncs, writes)
    }

    constructor (content: string)
      ensures Snapshot() == Start(content)
    {
      this.content, lastPublished, lastPublishedAt, pending := content, None, 0, None;
      timers, timersSet, syncs, writes := map[], 0, 0, [];
    }

    method Publish(t: Ticks)
      modifies this
      ensures Snapshot() == Published(old(Snapshot()), t)
    {
      var serialized := Serialized(content, t.stamp);
      if lastPublished == Some(serialized) { return; }
      var elapsed := t.first - lastPublishedAt;
      if elapsed < MIN_PUBLISH_INTERVAL_MS {
        if pending.Some? { return; }
        pending := Some(timersSet);
        timers := timers[timersSet := t.first + (MIN_PUBLISH_INTERVAL_MS - elapsed)];
        timersSet := timersSet + 1;
        return;
      }
      lastPublished := Some(serialized);
      lastPublishedAt := t.second;
      writes := writes + [Write(t.second, serialized)];
    }

    /** The timer's callback. */
    method Fire(id: nat, t: Ticks)
      requires id in timers
      modifies this
      ensures Snapshot() == Fired(old(Snapshot()), id, t)
    {
      timers := timers - {id};
      pending := None;
      Publish(t);
    }

    /** The store changes and calls its listeners. */
    method Change(content: string, each: seq<Ticks>)
      modifies this
      ensures Snapshot() == PublishedEach(old(Snapshot()).(content := content), each)
    {
      this.content := content;
      ghost var s := Snapshot();
      for i := 0 to |each|
        invariant Snapshot() == PublishedEach(s, each[..i])
      {
        assert each[..i + 1][..i] == each[..i];
        Publish(each[i]);
      }
      assert each[..|each|] == each;
    }

    method StartSync(t: Ticks)
      modifies this
      ensures Snapshot() == Started(old(Snapshot()), t)
    {
      Publish(t);
      syncs := syncs + 1;
    }

    method StopSync()
      requires syncs > 0
      modifies this
      ensures Snapshot() == Stopped(old(Snapshot()))
    {
      syncs := syncs - 1;
      if pending.Some? {
        timers := timers - {pending.value};
        pending := None;
      }
    }
  }
}
