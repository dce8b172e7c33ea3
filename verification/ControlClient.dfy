/**
 One control connection: calls and a reader share it, and replies find their calls by number. Each
 stretch between two suspension points is a step. The log records calls, lines and outcomes in order.
 */
module ControlClient {
  import opened Prelude

  /** The `id` of a message. Numbers compare as the keys of the pending table do. */
  datatype MessageId = NoId | Number(n: int) | OtherKey | Unhashable

  datatype Line = Malformed | EventLine(text: string) | ReplyLine(id: MessageId, ok: bool, text: string)

  /** What a call waits for: unset, set by the line at a position of the log, failed, or cancelled. */
  datatype Future = Unset | SetBy(at: nat) | Lost | Dropped

  datatype Outcome = Reply(at: nat) | TimedOut | ConnectionLost | Aborted

  datatype Entry = Called(id: int) | Received(line: Line) | Ended(id: int, outcome: Outcome) | ReaderEnded

  datatype State = State(
    nextId: int, pending: set<int>, futures: map<int, Future>, finished: set<int>,
    closed: bool, events: seq<string>, log: seq<Entry>)

  const Initial := State(0, {}, map[], {}, false, [], [])

  // ---- Steps ----

  function AfterCall(s: State): (State, Option<int>)
  {
    if s.closed then (s, None)
    else
      var id := s.nextId + 1;
      (s.(nextId := id, futures := s.futures[id := Unset], pending := s.pending + {id}, log := s.log + [Called(id)]),
       Some(id))
  }

  function Failing(pending: set<int>, futures: map<int, Future>): map<int, Future>
  {
    map id | id in futures :: if id in pending && futures[id].Unset? then Lost else futures[id]
  }

  lemma FailOne(done: set<int>, futures: map<int, Future>, id: int)
    requires id !in done
    ensures var f := Failing(done, futures);
            Failing(done + {id}, futures) == if id in f && f[id].Unset? then f[id := Lost] else f
  {
  }

  function AfterReader(s: State): State
  {
    s.(closed := true, futures := Failing(s.pending, s.futures), pending := {}, log := s.log + [ReaderEnded])
  }

  /** A reply sets the future of its number, once. A key that cannot be looked up ends the reader. */
  function AfterLine(s: State, line: Line): State
  {
    var t := s.(log := s.log + [Received(line)]);
    match line
    case Malformed => t
    case EventLine(text) => t.(events := t.events + [text])
    case ReplyLine(id, _, _) =>
      match id
      case Unhashable => AfterReader(t)
      case Number(n) =>
        if n !in s.pending then t
        else if n in s.futures && s.futures[n].Unset?
        then t.(pending := s.pending - {n}, futures := s.futures[n := SetBy(|s.log|)])
        else t.(pending := s.pending - {n})
      case _ => t
  }

  function Finish(s: State, id: int, outcome: Outcome): State
  {
    s.(finished := s.finished + {id}, log := s.log + [Ended(id, outcome)])
  }

  function AfterResume(s: State, id: int): State
    requires id in s.futures
  {
    Finish(s, id, if s.futures[id].SetBy? then Reply(s.futures[id].at) else ConnectionLost)
  }

  function Drop(futures: map<int, Future>, id: int): map<int, Future>
  {
    if id in futures && futures[id].Unset? then futures[id := Dropped] else futures
  }

  function AfterTimeout(s: State, id: int): State
  {
    Finish(s.(futures := Drop(s.futures, id), pending := s.pending - {id}), id, TimedOut)
  }

  /** Sending failed or the caller was cancelled; the number stays in the table. */
  function AfterAbort(s: State, id: int): State
  {
    Finish(s.(futures := Drop(s.futures, id)), id, Aborted)
  }

  datatype Action = Call | Take(line: Line) | EndReader | Resume(id: int) | Timeout(id: int) | Abort(id: int)

  predicate Ready(s: State, id: int)
  {
    id in s.futures && id !in s.finished && (s.futures[id].SetBy? || s.futures[id].Lost?)
  }

  predicate Enabled(s: State, a: Action)
  {
    match a
    case Call => true
    case Take(_) => !s.closed
    case EndReader => !s.closed
    case Resume(id) => Ready(s, id)
    case Timeout(id) => id in s.futures && id !in s.finished
    case Abort(id) => id in s.futures && id !in s.finished
  }

  function Step(s: State, a: Action): State
    requires Enabled(s, a)
  {
    match a
    case Call => AfterCall(s).0
    case Take(line) => AfterLine(s, line)
    case EndReader => AfterReader(s)
    case Resume(id) => AfterResume(s, id)
    case Timeout(id) => AfterTimeout(s, id)
    case Abort(id) => AfterAbort(s, id)
  }

  predicate Runs(s: State, run: seq<Action>, last: State)
    decreases |run|
  {
    if run == [] then last == s else Enabled(s, run[0]) && Runs(Step(s, run[0]), run[1..], last)
  }

  // ---- Invariants ----

  ghost predicate Tables(s: State)
  {
    && 0 <= s.nextId
    && (forall id :: id in s.futures ==> 1 <= id <= s.nextId)
    && (forall id :: id in s.pending ==> id in s.futures && (s.futures[id].Unset? || s.futures[id].Dropped?))
    && (forall id :: id in s.futures && s.futures[id].Unset? ==> id in s.pending && id !in s.finished)
    && (forall id :: id in s.finished ==> id in s.futures)
    && (forall id :: id in s.futures && s.futures[id].Dropped? ==> id in s.finished)
    && (s.closed ==> s.pending == {})
  }

  /** The line at a position answers a call that was made before it. */
  ghost predicate Answers(log: seq<Entry>, at: nat, id: int)
  {
    && at < |log| && log[at].Received? && log[at].line.ReplyLine? && log[at].line.id == Number(id)
    && exists i :: 0 <= i < at && log[i] == Called(id)
  }

  ghost predicate Linked(s: State)
  {
    && (forall id :: id in s.futures <==> Called(id) in s.log)
    && (forall x :: x in s.log && x.Ended? ==> x.id in s.finished)
    && (forall id :: id in s.pending && id in s.finished ==> Ended(id, Aborted) in s.log)
    && (forall id :: id in s.futures && s.futures[id].SetBy? ==> Answers(s.log, s.futures[id].at, id))
    && (forall id :: id in s.futures && s.futures[id].Lost? ==> ReaderEnded in s.log)
    && (s.closed <==> ReaderEnded in s.log)
  }

  /** Numbers grow, only an open connection takes calls, and outcomes have their reasons. */
  ghost predicate Justified(before: seq<Entry>, x: Entry)
  {
    match x
    case Called(id) => ReaderEnded !in before && forall y :: y in before && y.Called? ==> y.id < id
    case Received(_) => ReaderEnded !in before
    case ReaderEnded => ReaderEnded !in before
    case Ended(id, outcome) =>
      && Called(id) in before
      && (forall y :: y in before && y.Ended? ==> y.id != id)
      && (outcome.Reply? ==> Answers(before, outcome.at, id))
      && (outcome.ConnectionLost? ==> ReaderEnded in before)
  }

  ghost predicate History(log: seq<Entry>)
  {
    log == [] || (History(log[..|log| - 1]) && Justified(log[..|log| - 1], log[|log| - 1]))
  }

  ghost predicate Inv(s: State) { Tables(s) && Linked(s) && History(s.log) }

  lemma HistoryAppend(log: seq<Entry>, x: Entry)
    requires History(log) && Justified(log, x)
    ensures History(log + [x])
  {
    assert (log + [x])[..|log|] == log;
  }

  lemma {:induction false} HistoryAt(log: seq<Entry>, i: nat)
    requires History(log) && i < |log|
    ensures Justified(log[..i], log[i])
  {
    if i < |log| - 1 {
      HistoryAt(log[..|log| - 1], i);
      assert log[..|log| - 1][..i] == log[..i];
    }
  }

  lemma AnswersStay(log: seq<Entry>, x: Entry, at: nat, id: int)
    requires Answers(log, at, id)
    ensures Answers(log + [x], at, id)
  {
    var i :| 0 <= i < at && log[i] == Called(id);
    assert (log + [x])[i] == Called(id);
  }

  lemma LinkedAppend(s: State, x: Entry)
    requires Linked(s) && (x.Received? || (x.Ended? && x.id in s.finished))
    ensures Linked(s.(log := s.log + [x]))
  {
    forall id | id in s.futures && s.futures[id].SetBy? ensures Answers(s.log + [x], s.futures[id].at, id) {
      AnswersStay(s.log, x, s.futures[id].at, id);
    }
  }

  lemma CallLinked(s: State)
    requires Tables(s) && Linked(s) && !s.closed
    ensures Linked(AfterCall(s).0)
  {
    var x := Called(s.nextId + 1);
    forall id | id in s.futures && s.futures[id].SetBy? ensures Answers(s.log + [x], s.futures[id].at, id) {
      AnswersStay(s.log, x, s.futures[id].at, id);
    }
    hide Answers;
  }

  lemma CallTables(s: State)
    requires Tables(s)
    ensures Tables(AfterCall(s).0)
  {
  }

  lemma CallKeeps(s: State)
    requires Inv(s)
    ensures Inv(AfterCall(s).0)
  {
    if !s.closed {
      assert Justified(s.log, Called(s.nextId + 1));
      hide Justified, Tables, Linked;
      HistoryAppend(s.log, Called(s.nextId + 1));
      CallLinked(s);
      CallTables(s);
      hide History;
    }
  }

  lemma ReaderKeeps(s: State)
    requires Inv(s) && !s.closed
    ensures Inv(AfterReader(s))
  {
    HistoryAppend(s.log, ReaderEnded);
    forall id | id in s.futures && s.futures[id].SetBy? ensures Answers(s.log + [ReaderEnded], s.futures[id].at, id) {
      AnswersStay(s.log, ReaderEnded, s.futures[id].at, id);
    }
    hide History, Answers;
  }

  lemma ReceivedKeeps(s: State, line: Line)
    requires Inv(s) && !s.closed
    ensures Inv(s.(log := s.log + [Received(line)]))
  {
    HistoryAppend(s.log, Received(line));
    LinkedAppend(s, Received(line));
    hide History, Linked;
  }

  lemma SetKeeps(s: State, n: int, line: Line)
    requires Inv(s) && !s.closed && n in s.futures && s.futures[n].Unset? && line.ReplyLine? && line.id == Number(n)
    ensures Inv(AfterLine(s, line))
  {
    ReceivedKeeps(s, line);
    var t := s.(log := s.log + [Received(line)]);
    var i :| 0 <= i < |s.log| && s.log[i] == Called(n);
    assert t.log[i] == Called(n);
    assert Answers(t.log, |s.log|, n);
    hide History, Answers;
  }

  lemma PopKeeps(s: State, n: int)
    requires Inv(s) && (n in s.futures ==> !s.futures[n].Unset?)
    ensures Inv(s.(pending := s.pending - {n}))
  {
    hide History, Answers;
  }

  lemma TakeKeeps(s: State, line: Line)
    requires Inv(s) && !s.closed
    ensures Inv(AfterLine(s, line))
  {
    hide Inv, AfterReader;
    ReceivedKeeps(s, line);
    var t := s.(log := s.log + [Received(line)]);
    match line
    case Malformed =>
    case EventLine(text) => assert Inv(t.(events := t.events + [text])) by { EventKeeps(t, text); }
    case ReplyLine(id, _, _) =>
      match id
      case NoId =>
      case OtherKey =>
      case Unhashable => ReaderKeeps(t);
      case Number(n) =>
        if n in s.futures && s.futures[n].Unset? { SetKeeps(s, n, line); } else { PopKeeps(t, n); }
        assert n in s.futures && s.futures[n].Unset? ==> n in s.pending by { UnsetPending(s, n); }
  }

  lemma EventKeeps(s: State, text: string)
    requires Inv(s)
    ensures Inv(s.(events := s.events + [text]))
  {
  }

  lemma UnsetPending(s: State, n: int)
    requires Inv(s)
    ensures n in s.futures && s.futures[n].Unset? ==> n in s.pending
  {
  }

  lemma FinishKeeps(s: State, id: int, outcome: Outcome)
    requires Inv(s) && id in s.futures && id !in s.finished && (s.futures[id].SetBy? || s.futures[id].Lost?)
    requires outcome.Reply? ==> Answers(s.log, outcome.at, id)
    requires outcome.ConnectionLost? ==> ReaderEnded in s.log
    ensures Inv(Finish(s, id, outcome))
  {
    HistoryAppend(s.log, Ended(id, outcome));
    LinkedAppend(s.(finished := s.finished + {id}), Ended(id, outcome));
    hide History, Answers;
  }

  /** A future given up and its call over, with or without its number leaving the table. */
  function GivenUp(s: State, id: int, left: set<int>): State
  {
    s.(futures := Drop(s.futures, id), pending := left, finished := s.finished + {id})
  }

  lemma GivenUpLinked(s: State, id: int, left: set<int>, outcome: Outcome)
    requires Linked(s) && id in s.futures && left <= s.pending && (id in left ==> outcome == Aborted)
    ensures Linked(GivenUp(s, id, left).(log := s.log + [Ended(id, outcome)]))
  {
    var x := Ended(id, outcome);
    forall i | i in s.futures && s.futures[i].SetBy? ensures Answers(s.log + [x], s.futures[i].at, i) {
      AnswersStay(s.log, x, s.futures[i].at, i);
    }
    hide Answers;
  }

  lemma GivenUpTables(s: State, id: int, left: set<int>)
    requires Tables(s) && id in s.futures && id !in s.finished
    requires left == s.pending - {id} || left == s.pending
    ensures Tables(GivenUp(s, id, left))
  {
  }

  lemma DropKeeps(s: State, id: int, outcome: Outcome, left: set<int>)
    requires Inv(s) && id in s.futures && id !in s.finished
    requires (outcome == TimedOut && left == s.pending - {id}) || (outcome == Aborted && left == s.pending)
    ensures Inv(Finish(s.(futures := Drop(s.futures, id), pending := left), id, outcome))
  {
    var x := Ended(id, outcome);
    assert Justified(s.log, x);
    HistoryAppend(s.log, x);
    GivenUpTables(s, id, left);
    GivenUpLinked(s, id, left, outcome);
    hide History, Linked, Justified, Drop;
  }

  lemma StepKeeps(s: State, a: Action)
    requires Inv(s) && Enabled(s, a)
    ensures Inv(Step(s, a))
  {
    match a
    case Call => CallKeeps(s);
    case Take(line) => TakeKeeps(s, line);
    case EndReader => ReaderKeeps(s);
    case Resume(id) =>
      FinishKeeps(s, id, if s.futures[id].SetBy? then Reply(s.futures[id].at) else ConnectionLost);
    case Timeout(id) => DropKeeps(s, id, TimedOut, s.pending - {id});
    case Abort(id) => DropKeeps(s, id, Aborted, s.pending);
  }

  lemma {:induction false} RunKeeps(s: State, run: seq<Action>, last: State)
    requires Inv(s) && Runs(s, run, last)
    ensures Inv(last)
    decreases |run|
  {
    hide Inv;
    if run != [] {
      StepKeeps(s, run[0]);
      RunKeeps(Step(s, run[0]), run[1..], last);
    }
  }

  ghost predicate Reachable(s: State) { exists run :: Runs(Initial, run, s) }

  lemma ReachableInv(s: State)
    requires Reachable(s)
    ensures Inv(s)
  {
    var run :| Runs(Initial, run, s);
    RunKeeps(Initial, run, s);
  }

  // ---- Theorems ----

  /** Numbers are never reused: later calls have larger ones. */
  lemma NumbersFresh(s: State, i: nat, j: nat)
    requires Reachable(s) && i < j < |s.log| && s.log[i].Called? && s.log[j].Called?
    ensures s.log[i].id < s.log[j].id
  {
    ReachableInv(s);
    HistoryAt(s.log, j);
    assert s.log[..j][i] == s.log[i];
  }

  /** A call ends once: with a message of its own number that came after it was made, or for another reason. */
  lemma EndsForAReason(s: State, i: nat)
    requires Reachable(s) && i < |s.log| && s.log[i].Ended?
    ensures forall j :: 0 <= j < |s.log| && j != i && s.log[j].Ended? ==> s.log[j].id != s.log[i].id
    ensures s.log[i].outcome.Reply? ==> s.log[i].outcome.at < i && Answers(s.log, s.log[i].outcome.at, s.log[i].id)
    ensures s.log[i].outcome.ConnectionLost? ==> ReaderEnded in s.log[..i]
  {
    ReachableInv(s);
    HistoryAt(s.log, i);
    forall j | 0 <= j < |s.log| && j != i && s.log[j].Ended? ensures s.log[j].id != s.log[i].id {
      if j < i { assert s.log[j] in s.log[..i]; } else { HistoryAt(s.log, j); assert s.log[i] in s.log[..j]; }
    }
    hide History;
  }

  /** One message ends at most one call. */
  lemma RepliesApart(s: State, i: nat, j: nat)
    requires Reachable(s) && i < |s.log| && j < |s.log| && s.log[i].Ended? && s.log[j].Ended?
    requires s.log[i].outcome.Reply? && s.log[j].outcome == s.log[i].outcome
    ensures i == j
  {
    EndsForAReason(s, i);
    EndsForAReason(s, j);
  }

  /** A reply to a call that is over, or to none, sets nothing and ends nothing. */
  lemma LateReplyIgnored(s: State, n: int, ok: bool, text: string)
    requires Reachable(s) && (n in s.finished || n !in s.futures)
    ensures var t := AfterLine(s, ReplyLine(Number(n), ok, text));
            && t.futures == s.futures && t.finished == s.finished && t.nextId == s.nextId && t.closed == s.closed
            && t.pending == s.pending - {n}
  {
    ReachableInv(s);
  }

  /** While the reader runs, a call gets a number of its own and waits for it. */
  lemma CallAccepted(s: State)
    requires Reachable(s) && !s.closed
    ensures var (t, id) := AfterCall(s);
            && id.Some? && id.value !in s.futures && Called(id.value) !in s.log
            && id.value in t.pending && id.value in t.futures && id.value !in t.finished && !Ready(t, id.value)
  {
    ReachableInv(s);
    hide History, Answers;
  }

  /** A reply reaches the call that waits for it: the call can go on, and ends with this message when it does. */
  lemma ReplyReaches(s: State, id: int, ok: bool, text: string)
    requires Reachable(s) && !s.closed && id in s.futures && id !in s.finished && !Ready(s, id)
    ensures var line := ReplyLine(Number(id), ok, text);
            var t := AfterLine(s, line);
            && Ready(t, id) && id !in t.pending
            && t.log == s.log + [Received(line)]
            && AfterResume(t, id).log == t.log + [Ended(id, Reply(|s.log|))]
            && id in AfterResume(t, id).finished
  {
    ReachableInv(s);
    hide History, Answers;
  }

  /** The end of the reader fails every call that waits. */
  lemma LossReaches(s: State, id: int)
    requires Reachable(s) && !s.closed && id in s.futures && id !in s.finished && !Ready(s, id)
    ensures Ready(AfterReader(s), id)
    ensures AfterResume(AfterReader(s), id).log == s.log + [ReaderEnded, Ended(id, ConnectionLost)]
  {
    ReachableInv(s);
    assert s.log + [ReaderEnded] + [Ended(id, ConnectionLost)] == s.log + [ReaderEnded, Ended(id, ConnectionLost)];
    hide History, Answers;
  }

  /** Its message was received, or it is over. */
  predicate HasReply(s: State, id: int, at: nat) { id in s.futures && s.futures[id] == SetBy(at) }

  lemma ReplyStays(s: State, a: Action, id: int, at: nat)
    requires Enabled(s, a) && HasReply(s, id, at) && id <= s.nextId
    ensures HasReply(Step(s, a), id, at) && id <= Step(s, a).nextId && s.log <= Step(s, a).log
    ensures forall k, outcome ::
              |s.log| <= k < |Step(s, a).log| && Step(s, a).log[k] == Ended(id, outcome) ==>
                outcome == Reply(at) || a == Timeout(id) || a == Abort(id)
  {
  }

  /** A call whose message was received ends with it, unless it is cancelled or its timer fires first. */
  lemma {:induction false} ReceivedMeansReply(
      s: State, run: seq<Action>, last: State, id: int, at: nat, k: nat, outcome: Outcome)
    requires Inv(s) && Runs(s, run, last) && HasReply(s, id, at)
    requires |s.log| <= k < |last.log| && last.log[k] == Ended(id, outcome)
    ensures outcome == Reply(at) || Timeout(id) in run || Abort(id) in run
    decreases |run|
  {
    hide Step, Enabled, Linked, History;
    if run != [] {
      var mid := Step(s, run[0]);
      assert id <= s.nextId;
      ReplyStays(s, run[0], id, at);
      StepKeeps(s, run[0]);
      RunGrows(mid, run[1..], last);
      if k < |mid.log| {
        assert mid.log[k] == last.log[k];
      } else {
        ReceivedMeansReply(mid, run[1..], last, id, at, k, outcome);
        assert run == [run[0]] + run[1..];
      }
    }
  }

  lemma StepGrows(s: State, a: Action)
    requires Enabled(s, a)
    ensures s.log <= Step(s, a).log
  {
  }

  lemma {:induction false} RunGrows(s: State, run: seq<Action>, last: State)
    requires Runs(s, run, last)
    ensures s.log <= last.log
    decreases |run|
  {
    hide Step, Enabled;
    if run != [] {
      StepGrows(s, run[0]);
      RunGrows(Step(s, run[0]), run[1..], last);
    }
  }

  /** The events among the lines of a log, in order. */
  function EventTexts(log: seq<Entry>): seq<string>
  {
    if log == [] then []
    else
      var x := log[|log| - 1];
      EventTexts(log[..|log| - 1]) + if x.Received? && x.line.EventLine? then [x.line.text] else []
  }

  lemma EventAppend(log: seq<Entry>, x: Entry)
    ensures EventTexts(log + [x]) == EventTexts(log) + if x.Received? && x.line.EventLine? then [x.line.text] else []
  {
    assert (log + [x])[..|log|] == log;
  }

  lemma StepEvents(s: State, a: Action)
    requires s.events == EventTexts(s.log) && Enabled(s, a)
    ensures Step(s, a).events == EventTexts(Step(s, a).log)
  {
    var t := Step(s, a);
    hide EventTexts;
    if a.Take? {
      EventAppend(s.log, Received(a.line));
      EventAppend(s.log + [Received(a.line)], ReaderEnded);
    } else if |t.log| > |s.log| {
      EventAppend(s.log, t.log[|s.log|]);
    }
  }

  lemma {:induction false} RunEvents(s: State, run: seq<Action>, last: State)
    requires s.events == EventTexts(s.log) && Runs(s, run, last)
    ensures last.events == EventTexts(last.log)
    decreases |run|
  {
    hide Step, Enabled, EventTexts;
    if run != [] {
      StepEvents(s, run[0]);
      RunEvents(Step(s, run[0]), run[1..], last);
    }
  }

  /** The queue of events holds every event line that was received, in order. */
  lemma EventsQueued(s: State)
    requires Reachable(s)
    ensures s.events == EventTexts(s.log)
  {
    var run :| Runs(Initial, run, s);
    RunEvents(Initial, run, s);
  }

  /** After the reader no call is pending or accepted, and those still waiting can go on. */
  lemma ClosedIsFinal(s: State)
    requires Reachable(s) && s.closed
    ensures s.pending == {} && AfterCall(s) == (s, None)
    ensures forall id :: id in s.futures && id !in s.finished ==> Ready(s, id)
    ensures forall a :: Enabled(s, a) ==> Step(s, a).closed && Step(s, a).pending == {}
  {
    ReachableInv(s);
  }

  /** The table holds the calls that still wait for their message, and of those that are over only aborted ones. */
  lemma PendingExactly(s: State, id: int)
    requires Reachable(s)
    ensures id in s.futures && id !in s.finished ==> (id in s.pending <==> !Ready(s, id))
    ensures id in s.pending ==> id in s.futures && (id in s.finished ==> Ended(id, Aborted) in s.log)
  {
    ReachableInv(s);
  }

  // ---- The object ----

  class ControlClient {
    var nextId: int
    var pending: set<int>
    var futures: map<int, Future>
    var closed: bool
    var events: seq<string>
    ghost var finished: set<int>
    /** A future holds the position of its message here. */
    var log: seq<Entry>

    ghost function Snapshot(): State
      reads this
    {
      State(nextId, pending, futures, finished, closed, events, log)
    }

    constructor ()
      ensures Snapshot() == Initial
    {
      nextId, pending, futures, closed, events := 0, {}, map[], false, [];
      finished, log := {}, [];
    }

    /** Up to the wait for the reply. */
    method Call() returns (id: Option<int>)
      modifies this
      ensures (Snapshot(), id) == AfterCall(old(Snapshot()))
    {
      if closed { return None; }
      nextId := nextId + 1;
      futures := futures[nextId := Unset];
      pending := pending + {nextId};
      log := log + [Called(nextId)];
      id := Some(nextId);
    }

    /** The end of the reader fails every future still in the table. */
    method EndReader()
      modifies this
      ensures Snapshot() == AfterReader(old(Snapshot()))
    {
      closed := true;
      var left := pending;
      while left != {}
        invariant left <= pending == old(pending)
        invariant futures == Failing(pending - left, old(futures))
        invariant closed && nextId == old(nextId) && events == old(events) && finished == old(finished)
                  && log == old(log)
        decreases |left|
      {
        var id := AnyOf(left);
        FailOne(pending - left, old(futures), id);
        assert pending - left + {id} == pending - (left - {id});
        left := left - {id};
        if id in futures && futures[id].Unset? { futures := futures[id := Lost]; }
      }
      assert pending - left == pending;
      pending := {};
      log := log + [ReaderEnded];
    }

    /** One round of the read loop. */
    method Take(line: Line)
      requires !closed
      modifies this
      ensures Snapshot() == AfterLine(old(Snapshot()), line)
    {
      log := log + [Received(line)];
      match line
      case Malformed =>
      case EventLine(text) => events := events + [text];
      case ReplyLine(id, _, _) =>
        match id
        case NoId =>
        case OtherKey =>
        case Unhashable => EndReader();
        case Number(n) =>
          if n in pending {
            pending := pending - {n};
            if n in futures && futures[n].Unset? { futures := futures[n := SetBy(|log| - 1)]; }
          }
    }

    method Resume(id: int) returns (outcome: Outcome)
      requires Ready(Snapshot(), id)
      modifies this
      ensures Snapshot() == AfterResume(old(Snapshot()), id) && log == old(log) + [Ended(id, outcome)]
    {
      outcome := if futures[id].SetBy? then Reply(futures[id].at) else ConnectionLost;
      finished := finished + {id};
      log := log + [Ended(id, outcome)];
    }

    method Timeout(id: int)
      modifies this
      ensures Snapshot() == AfterTimeout(old(Snapshot()), id)
    {
      if id in futures && futures[id].Unset? { futures := futures[id := Dropped]; }
      pending := pending - {id};
      finished := finished + {id};
      log := log + [Ended(id, TimedOut)];
    }
  }
}
