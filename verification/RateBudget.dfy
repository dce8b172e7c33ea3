/** What a rate limiter with a bounded table promises over a whole run of calls. */
module RateBudget {
  import opened Prelude
  import opened RateLimit

  // ---- Runs ----

  predicate LegalRun(l: Limits, t: Table, run: seq<Turn>)
    decreases |run|
  {
    run == [] || (Legal(l, t, run[0]) && LegalRun(l, After(l, run[0]), run[1..]))
  }

  function Final(l: Limits, t: Table, run: seq<Turn>): Table
    decreases |run|
  {
    if run == [] then t else Final(l, After(l, run[0]), run[1..])
  }

  /** The clock does not go back, and no call asks for a negative amount. */
  predicate Timed(run: seq<Turn>, a: real, b: real)
  {
    if run == [] then a <= b
    else a <= run[0].now && run[0].cost >= 0.0 && Timed(run[1..], run[0].now, b)
  }

  /** What is true of every table that calls up to the time `at` can leave. */
  predicate Valid(l: Limits, t: Table, at: real)
  {
    forall k :: k in t ==> 0.0 <= t[k].tokens <= l.burst && t[k].updated <= at
  }

  /** The key's bucket was dropped although it had not refilled. */
  predicate Forced(l: Limits, t: Table, turn: Turn, key: string)
  {
    key in Kept(l, t, turn.now) && key !in turn.left
  }

  function ForcedCount(l: Limits, t: Table, run: seq<Turn>, key: string): nat
    decreases |run|
  {
    if run == [] then 0
    else (if Forced(l, t, run[0], key) then 1 else 0) + ForcedCount(l, After(l, run[0]), run[1..], key)
  }

  /** The total cost of the calls admitted for the key. */
  function Spent(l: Limits, run: seq<Turn>, key: string): real
  {
    if run == [] then 0.0
    else (if run[0].key == key && Admits(l, run[0]) then run[0].cost else 0.0) + Spent(l, run[1..], key)
  }

  /** What a call for the key would find at `now`. */
  function Available(l: Limits, t: Table, key: string, now: real): real
  {
    if key in t then Refill(l, t[key], now) else l.burst
  }

  // ---- Refilling ----

  lemma EarnedSplit(l: Limits, x: real, y: real)
    ensures Earned(l, x + y) == Earned(l, x) + Earned(l, y)
  {
  }

  lemma EarnedNonNegative(l: Limits, x: real)
    requires Configured(l) && x >= 0.0
    ensures Earned(l, x) >= 0.0
  {
  }

  /** Refilling in two pieces is refilling once. */
  lemma RefillInPieces(l: Limits, b: Bucket, mid: real, now: real)
    requires Configured(l) && b.updated <= mid <= now
    ensures Refill(l, Bucket(Refill(l, b, mid), mid), now) == Refill(l, b, now)
  {
    EarnedSplit(l, mid - b.updated, now - mid);
    assert (mid - b.updated) + (now - mid) == now - b.updated;
    EarnedNonNegative(l, now - mid);
    hide Earned;
  }

  /** What is available later is what is available now, refilled. */
  lemma AvailableLater(l: Limits, t: Table, key: string, at: real, now: real)
    requires Configured(l) && Valid(l, t, at) && at <= now
    ensures Available(l, t, key, now) == Min(l.burst, Available(l, t, key, at) + Earned(l, now - at))
  {
    EarnedNonNegative(l, now - at);
    hide Earned;
    if key in t { RefillInPieces(l, t[key], at, now); }
  }

  // ---- One call ----

  /** Dropping a stale bucket changes nothing that a call can see. */
  lemma EvictionVisible(l: Limits, t: Table, turn: Turn, key: string)
    requires Configured(l) && Valid(l, t, turn.now) && Legal(l, t, turn)
    ensures !Forced(l, t, turn, key) ==>
              Available(l, turn.left, key, turn.now) == Available(l, t, key, turn.now)
    ensures Forced(l, t, turn, key) ==> Available(l, turn.left, key, turn.now) == l.burst
    ensures Valid(l, turn.left, turn.now)
    ensures 0.0 <= Available(l, t, key, turn.now) <= l.burst
  {
    if key in t { EarnedNonNegative(l, turn.now - t[key].updated); }
  }

  /** A call answers by what is available, takes its cost from it, and leaves other keys alone. */
  lemma CallVisible(l: Limits, turn: Turn, key: string)
    requires Configured(l) && Valid(l, turn.left, turn.now) && turn.cost >= 0.0
    ensures Admits(l, turn) <==> Available(l, turn.left, turn.key, turn.now) >= turn.cost
    ensures Available(l, After(l, turn), key, turn.now)
         == Available(l, turn.left, key, turn.now) - if turn.key == key && Admits(l, turn) then turn.cost else 0.0
    ensures Valid(l, After(l, turn), turn.now)
  {
    AvailableBounded(l, turn.left, turn.key, turn.now);
    var b := Presented(l, turn);
    assert b.tokens == Available(l, turn.left, turn.key, turn.now) && b.updated == turn.now;
    hide Refill;
    assert forall k :: k in After(l, turn) && k != turn.key ==> After(l, turn)[k] == turn.left[k];
    if key == turn.key {
      var c := After(l, turn)[key];
      assert c.updated == turn.now && c.tokens <= l.burst;
      RefillNow(l, c);
    }
  }

  /** No time, no refill. */
  lemma RefillNow(l: Limits, b: Bucket)
    requires b.tokens <= l.burst
    ensures Refill(l, b, b.updated) == b.tokens
  {
  }

  // ---- The budget ----

  /** Tokens stay between nothing and the burst size over every run from an empty table. */
  lemma {:induction false} TokensInRange(l: Limits, t: Table, run: seq<Turn>, a: real, b: real)
    requires Configured(l) && Valid(l, t, a) && LegalRun(l, t, run) && Timed(run, a, b)
    ensures a <= b && Valid(l, Final(l, t, run), b)
    decreases |run|
  {
    if run != [] {
      EvictionVisible(l, t, run[0], run[0].key);
      CallVisible(l, run[0], run[0].key);
      TokensInRange(l, After(l, run[0]), run[1..], run[0].now, b);
    }
  }

  /** A whole burst for each forced eviction. */
  function Gifts(l: Limits, n: nat): real { n as real * l.burst }

  lemma GiftsSplit(l: Limits, n: nat, m: nat)
    requires n <= 1
    ensures Gifts(l, 0) == 0.0
    ensures Gifts(l, n + m) == (if n == 1 then l.burst else 0.0) + Gifts(l, m)
  {
    assert (n + m) as real == n as real + m as real;
    EarnedSplit(l.(rate := l.burst), n as real, m as real);
  }

  /** What was spent and what is left never exceed what there was, what came in, and the gifts. */
  lemma {:induction false} Conservation(l: Limits, t: Table, run: seq<Turn>, key: string, a: real, b: real)
    requires Configured(l) && Valid(l, t, a) && LegalRun(l, t, run) && Timed(run, a, b)
    ensures Spent(l, run, key) + Available(l, Final(l, t, run), key, b)
         <= Available(l, t, key, a) + Earned(l, b - a) + Gifts(l, ForcedCount(l, t, run, key))
    decreases |run|
  {
    hide Earned, Gifts, Available, Legal, Kept, Forced, Admits, After;
    if run == [] {
      AvailableLater(l, t, key, a, b);
      GiftsSplit(l, 0, 0);
    } else {
      var turn, next := run[0], After(l, run[0]);
      Conservation(l, next, run[1..], key, turn.now, b) by {
        EvictionVisible(l, t, turn, key);
        CallVisible(l, turn, key);
      }
      CallBalance(l, t, turn, key, a);
      EarnedSplit(l, turn.now - a, b - turn.now);
      assert (turn.now - a) + (b - turn.now) == b - a;
      GiftsSplit(l, if Forced(l, t, turn, key) then 1 else 0, ForcedCount(l, next, run[1..], key));
    }
  }

  /** The balance of one call: refill, perhaps a gift, then the cost. */
  lemma CallBalance(l: Limits, t: Table, turn: Turn, key: string, a: real)
    requires Configured(l) && Valid(l, t, a) && Legal(l, t, turn) && a <= turn.now && turn.cost >= 0.0
    ensures (if turn.key == key && Admits(l, turn) then turn.cost else 0.0)
          + Available(l, After(l, turn), key, turn.now)
         <= Available(l, t, key, a) + Earned(l, turn.now - a)
          + (if Forced(l, t, turn, key) then l.burst else 0.0)
  {
    AvailableLater(l, t, key, a, turn.now);
    EvictionVisible(l, t, turn, key);
    CallVisible(l, turn, key);
    hide Available, After, Admits, Forced, Valid, Legal, Earned;
  }

  /** Calls before `a` and calls in `[a, b]`, all from an empty table. */
  predicate RunAround(l: Limits, before: seq<Turn>, during: seq<Turn>, start: real, a: real, b: real)
  {
    && LegalRun(l, map[], before) && Timed(before, start, a)
    && LegalRun(l, Final(l, map[], before), during) && Timed(during, a, b)
  }

  lemma BudgetOf(l: Limits, before: seq<Turn>, during: seq<Turn>, key: string, start: real, a: real, b: real)
    requires Configured(l) && RunAround(l, before, during, start, a, b)
    ensures var n := ForcedCount(l, Final(l, map[], before), during, key);
            Spent(l, during, key) <= Gifts(l, n + 1) + Earned(l, b - a)
  {
    var t := Final(l, map[], before);
    TokensInRange(l, map[], before, start, a);
    Conservation(l, t, during, key, a, b);
    TokensInRange(l, t, during, a, b);
    AvailableBounded(l, t, key, a);
    AvailableBounded(l, Final(l, t, during), key, b);
    GiftsSplit(l, 1, ForcedCount(l, t, during, key));
    hide *;
  }

  /** One key is admitted at most a burst plus the refill of the interval, and a burst per forced eviction. */
  lemma Budget(l: Limits, before: seq<Turn>, during: seq<Turn>, key: string, start: real, a: real, b: real)
    requires Configured(l) && RunAround(l, before, during, start, a, b)
    ensures var n := ForcedCount(l, Final(l, map[], before), during, key);
            Spent(l, during, key) <= (n + 1) as real * l.burst + l.rate * (b - a)
  {
    hide *;
    var n := ForcedCount(l, Final(l, map[], before), during, key);
    BudgetOf(l, before, during, key, start, a, b);
    Spelled(l, n + 1, b - a);
  }

  lemma Spelled(l: Limits, n: nat, time: real)
    ensures Gifts(l, n) == n as real * l.burst
    ensures Earned(l, time) == l.rate * time
  {
  }

  lemma AvailableBounded(l: Limits, t: Table, key: string, at: real)
    requires Configured(l) && Valid(l, t, at)
    ensures 0.0 <= Available(l, t, key, at) <= l.burst
  {
    if key in t { EarnedNonNegative(l, at - t[key].updated); }
  }

  // ---- When a call is admitted ----

  /** The key's bucket is never dropped before it has refilled. */
  predicate NeverForced(l: Limits, t: Table, run: seq<Turn>, key: string)
    decreases |run|
  {
    run == [] || (!Forced(l, t, run[0], key) && NeverForced(l, After(l, run[0]), run[1..], key))
  }

  /** From call number `i` on, the amount keeps within a burst and the refill since that call. */
  predicate Within(l: Limits, run: seq<Turn>, key: string, i: nat, now: real, amount: real)
    requires i < |run|
  {
    Spent(l, run[i..], key) + amount <= l.burst + Earned(l, now - run[i].now)
  }

  /** Within every budget since the first call of a run. */
  predicate AllWithin(l: Limits, run: seq<Turn>, key: string, now: real, amount: real)
  {
    forall i :: 0 <= i < |run| ==> Within(l, run, key, i, now, amount)
  }

  lemma AllWithinRest(l: Limits, run: seq<Turn>, key: string, now: real, amount: real)
    requires run != []
    ensures AllWithin(l, run, key, now, amount) <==>
              Within(l, run, key, 0, now, amount) && AllWithin(l, run[1..], key, now, amount)
  {
    hide Spent, Earned;
    var rest := run[1..];
    forall i | 0 <= i < |rest| ensures Within(l, run, key, i + 1, now, amount) <==>
        Within(l, rest, key, i, now, amount) {
      assert run[i + 1..] == rest[i..];
    }
    hide Within;
    if AllWithin(l, rest, key, now, amount) && Within(l, run, key, 0, now, amount) {
      forall i | 0 <= i < |run| ensures Within(l, run, key, i, now, amount) {
        if i > 0 { assert Within(l, rest, key, i - 1, now, amount); }
      }
    }
    if AllWithin(l, run, key, now, amount) {
      forall i | 0 <= i < |rest| ensures Within(l, rest, key, i, now,
          amount) { assert Within(l, run, key, i + 1, now, amount); }
      assert Within(l, run, key, 0, now, amount);
    }
  }

  /** What is available after a run covers an amount exactly when it keeps within every budget since. */
  lemma {:induction false} AvailableExactly(
      l: Limits, t: Table, run: seq<Turn>, key: string, a: real, now: real, amount: real)
    requires Configured(l) && Valid(l, t, a) && LegalRun(l, t, run) && Timed(run, a, now) && NeverForced(l, t, run, key)
    ensures amount <= Available(l, Final(l, t, run), key, now) <==>
              && amount <= l.burst
              && Spent(l, run, key) + amount <= Available(l, t, key, a) + Earned(l, now - a)
              && AllWithin(l, run, key, now, amount)
    decreases |run|
  {
    hide Earned, Available, Admits, After, Forced, Valid, Legal, Within, AllWithin;
    if run == [] {
      AvailableLater(l, t, key, a, now);
      assert AllWithin(l, run, key, now, amount) by { NothingWithin(l, key, now, amount); }
    } else {
      var turn, rest, at := run[0], run[1..], run[0].now;
      FirstCall(l, t, turn, key, a);
      AvailableExactly(l, After(l, turn), rest, key, at, now, amount);
      AllWithinRest(l, run, key, now, amount);
      WithinFirst(l, run, key, now, amount);
      EarnedSplit(l, at - a, now - at);
      assert (at - a) + (now - at) == now - a;
    }
  }

  lemma NothingWithin(l: Limits, key: string, now: real, amount: real)
    ensures AllWithin(l, [], key, now, amount)
  {
  }

  lemma WithinFirst(l: Limits, run: seq<Turn>, key: string, now: real, amount: real)
    requires run != []
    ensures Within(l, run, key, 0, now, amount) <==>
              Spent(l, run, key) + amount <= l.burst + Earned(l, now - run[0].now)
  {
    assert run[0..] == run;
  }

  /** One call that does not force the key out: what it leaves. */
  lemma FirstCall(l: Limits, t: Table, turn: Turn, key: string, a: real)
    requires Configured(l) && Valid(l, t, a) && Legal(l, t, turn) && a <= turn.now && turn.cost >= 0.0
    requires !Forced(l, t, turn, key)
    ensures Valid(l, After(l, turn), turn.now)
    ensures Available(l, After(l, turn), key, turn.now)
         == Min(l.burst, Available(l, t, key, a) + Earned(l, turn.now - a))
            - if turn.key == key && Admits(l, turn) then turn.cost else 0.0
  {
    hide Available, After, Admits, Forced, Legal, Earned;
    AvailableLater(l, t, key, a, turn.now);
    assert Valid(l, t, turn.now);
    hide Valid;
    EvictionVisible(l, t, turn, key);
    CallVisible(l, turn, key);
  }

  /** From call number `i` on, the cost keeps within a burst and the refill since that call. */
  predicate Conforms(l: Limits, run: seq<Turn>, turn: Turn, i: nat)
    requires i < |run|
  {
    Spent(l, run[i..], turn.key) + turn.cost <= l.burst + l.rate * (turn.now - run[i].now)
  }

  lemma ConformsWithin(l: Limits, run: seq<Turn>, turn: Turn)
    ensures AllWithin(l, run, turn.key, turn.now, turn.cost) <==> forall i :: 0 <= i < |run| ==>
              Conforms(l, run, turn, i)
  {
    hide Spent;
    forall i | 0 <= i < |run|
      ensures Within(l, run, turn.key, i, turn.now, turn.cost) <==> Conforms(l, run, turn, i)
    {
      assert Earned(l, turn.now - run[i].now) == l.rate * (turn.now - run[i].now);
    }
    hide Within, Conforms;
  }

  /**
   A call for a key that was never dropped before it had refilled is admitted exactly when, counted from each
   earlier call on, what was admitted and this call keep within a burst and the refill since.
   */
  lemma AdmitsExactly(l: Limits, run: seq<Turn>, turn: Turn, start: real)
    requires Configured(l) && LegalRun(l, map[], run + [turn]) && Timed(run + [turn], start, turn.now)
    requires NeverForced(l, map[], run + [turn], turn.key)
    ensures Admits(l, turn) <==> turn.cost <= l.burst && forall i :: 0 <= i < |run| ==> Conforms(l, run, turn, i)
  {
    hide Legal, After, Earned, Conforms, AllWithin, Spent, Refill;
    SplitRun(l, map[], run, turn, start);
    var t := Final(l, map[], run);
    TokensInRange(l, map[], run, start, turn.now);
    assert Available(l, map[], turn.key, start) == l.burst;
    hide Available, Valid, Admits, Forced, LegalRun, NeverForced, Final;
    EvictionVisible(l, t, turn, turn.key);
    CallVisible(l, turn, turn.key);
    AvailableExactly(l, map[], run, turn.key, start, turn.now, turn.cost);
    ConformsWithin(l, run, turn);
    if turn.cost <= l.burst && AllWithin(l, run, turn.key, turn.now, turn.cost) { EmptyCovers(l, run, turn, start); }
  }

  /** A run and one more call. */
  lemma {:induction false} SplitRun(l: Limits, t: Table, run: seq<Turn>, turn: Turn, from: real)
    requires LegalRun(l, t, run + [turn]) && Timed(run + [turn], from, turn.now)
    requires NeverForced(l, t, run + [turn], turn.key)
    ensures LegalRun(l, t, run) && Timed(run, from, turn.now) && NeverForced(l, t, run, turn.key)
    ensures Legal(l, Final(l, t, run), turn) && !Forced(l, Final(l, t, run), turn, turn.key) && turn.cost >= 0.0
    decreases |run|
  {
    hide Legal, Forced, After;
    var all := run + [turn];
    if run == [] {
      assert all == [turn] && all[0] == turn;
    } else {
      assert all[0] == run[0] && all[1..] == run[1..] + [turn];
      SplitRun(l, After(l, run[0]), run[1..], turn, run[0].now);
    }
  }

  /** From an empty table the first budget is that of the first call. */
  lemma EmptyCovers(l: Limits, run: seq<Turn>, turn: Turn, start: real)
    requires Configured(l) && Timed(run, start, turn.now)
    requires turn.cost <= l.burst && AllWithin(l, run, turn.key, turn.now, turn.cost)
    ensures Spent(l, run, turn.key) + turn.cost <= l.burst + Earned(l, turn.now - start)
  {
    var first := if run == [] then turn.now else run[0].now;
    EarnedSplit(l, turn.now - first, first - start);
    EarnedNonNegative(l, first - start);
    EarnedNonNegative(l, 0.0);
    assert (turn.now - first) + (first - start) == turn.now - start;
    if run != [] {
      assert Within(l, run, turn.key, 0, turn.now, turn.cost);
      WithinFirst(l, run, turn.key, turn.now, turn.cost);
    }
    hide Earned, Within;
  }

  // ---- The unbounded table ----

  /** A limiter that never drops a bucket, given the same call. */
  function IdealTurn(t: Table, turn: Turn): Turn { turn.(left := t) }

  function Answers(l: Limits, run: seq<Turn>): seq<bool>
  {
    if run == [] then [] else [Admits(l, run[0])] + Answers(l, run[1..])
  }

  function IdealAnswers(l: Limits, t: Table, run: seq<Turn>): seq<bool>
    decreases |run|
  {
    if run == [] then []
    else
      var turn := IdealTurn(t, run[0]);
      [Admits(l, turn)] + IdealAnswers(l, After(l, turn), run[1..])
  }

  predicate NoForced(l: Limits, t: Table, run: seq<Turn>)
    decreases |run|
  {
    run == [] ||
    (&& (forall k :: k in Kept(l, t, run[0].now) ==> !Forced(l, t, run[0], k))
     && NoForced(l, After(l, run[0]), run[1..]))
  }

  ghost predicate SameView(l: Limits, t: Table, u: Table, at: real)
  {
    forall k: string :: Available(l, t, k, at) == Available(l, u, k, at)
  }

  lemma SameViewLater(l: Limits, t: Table, u: Table, at: real, now: real)
    requires Configured(l) && Valid(l, t, at) && Valid(l, u, at) && at <= now && SameView(l, t, u, at)
    ensures Valid(l, t, now) && Valid(l, u, now) && SameView(l, t, u, now)
  {
    forall k: string ensures Available(l, t, k, now) == Available(l, u, k, now) {
      AvailableLater(l, t, k, at, now);
      AvailableLater(l, u, k, at, now);
    }
  }

  /** One call on both tables. */
  lemma SameViewStep(l: Limits, t: Table, u: Table, turn: Turn)
    requires Configured(l) && Valid(l, t, turn.now) && Valid(l, u, turn.now) && SameView(l, t, u, turn.now)
    requires Legal(l, t, turn) && turn.cost >= 0.0
    requires forall k :: k in Kept(l, t, turn.now) ==> !Forced(l, t, turn, k)
    ensures var ideal := IdealTurn(u, turn);
      && (Admits(l, turn) <==> Admits(l, ideal))
      && Valid(l, After(l, turn), turn.now) && Valid(l, After(l, ideal), turn.now)
      && SameView(l, After(l, turn), After(l, ideal), turn.now)
  {
    var ideal := IdealTurn(u, turn);
    EvictionVisible(l, t, turn, turn.key);
    CallVisible(l, turn, turn.key);
    CallVisible(l, ideal, turn.key);
    hide Available, After, Admits, Valid, Kept;
    assert Available(l, t, turn.key, turn.now) == Available(l, u, turn.key, turn.now);
    forall k: string
      ensures Available(l, After(l, turn), k, turn.now) == Available(l, After(l, ideal), k, turn.now)
    {
      assert Available(l, t, k, turn.now) == Available(l, u, k, turn.now);
      EvictionVisible(l, t, turn, k);
      CallVisible(l, turn, k);
      CallVisible(l, ideal, k);
    }
  }

  /** While no bucket is force-evicted, dropping refilled buckets cannot be observed. */
  lemma {:induction false} DroppingUnobservable(l: Limits, t: Table, u: Table, run: seq<Turn>, a: real, b: real)
    requires Configured(l) && Valid(l, t, a) && Valid(l, u, a) && SameView(l, t, u, a)
    requires LegalRun(l, t, run) && Timed(run, a, b) && NoForced(l, t, run)
    ensures Answers(l, run) == IdealAnswers(l, u, run)
    decreases |run|
  {
    if run != [] {
      SameViewLater(l, t, u, a, run[0].now);
      SameViewStep(l, t, u, run[0]);
      DroppingUnobservable(l, After(l, run[0]), After(l, IdealTurn(u, run[0])), run[1..], run[0].now, b);
    }
  }

  // ---- The size of the table ----

  lemma KeptSmaller(l: Limits, t: Table, now: real)
    ensures Kept(l, t, now).Keys <= t.Keys && |Kept(l, t, now)| <= |t|
  {
    SubsetSize(Kept(l, t, now).Keys, t.Keys);
  }

  lemma OneTurnBounded(l: Limits, t: Table, turn: Turn)
    requires l.maxKeys >= 2 && |t| <= l.maxKeys && Legal(l, t, turn)
    ensures |After(l, turn)| <= l.maxKeys
  {
    KeptSmaller(l, t, turn.now);
    hide Kept;
    var next, left := After(l, turn), turn.left;
    assert next.Keys == left.Keys + {turn.key};
    if turn.key in left {
      assert next.Keys == left.Keys;
    } else {
      assert |next.Keys| == |left.Keys| + 1;
    }
  }

  /** With room for two keys the table never grows past its bound. */
  lemma {:induction false} TableBounded(l: Limits, t: Table, run: seq<Turn>)
    requires l.maxKeys >= 2 && |t| <= l.maxKeys && LegalRun(l, t, run)
    ensures |Final(l, t, run)| <= l.maxKeys
    decreases |run|
  {
    if run != [] {
      OneTurnBounded(l, t, run[0]);
      TableBounded(l, After(l, run[0]), run[1..]);
    }
  }

  /** The bound holds for every run exactly when there is room for two keys. */
  lemma TableBoundedExactly(l: Limits)
    requires Configured(l)
    ensures l.maxKeys >= 2 <==>
            forall run: seq<Turn> :: LegalRun(l, map[], run) ==> |Final(l, map[], run)| <= l.maxKeys
  {
    if l.maxKeys >= 2 {
      forall run: seq<Turn> | LegalRun(l, map[], run) ensures |Final(l, map[], run)| <= l.maxKeys {
        TableBounded(l, map[], run);
      }
    } else {
      Overflow(l);
    }
  }

  /** One call too many for a table of one, or of none. */
  lemma Overflow(l: Limits)
    requires Configured(l) && l.maxKeys < 2
    ensures exists run: seq<Turn> :: LegalRun(l, map[], run) && |Final(l, map[], run)| > l.maxKeys
  {
    var first := Turn("a", 1.0, 0.0, map[]);
    var t1 := map["a" := Bucket(l.burst - 1.0, 0.0)];
    assert Kept(l, map[], 0.0) == map[] && After(l, first) == t1;
    assert |t1| == 1;
    if l.maxKeys == 0 {
      var run := [first];
      assert run[1..] == [] && LegalRun(l, t1, run[1..]) && Final(l, t1, run[1..]) == t1;
      assert LegalRun(l, map[], run) && Final(l, map[], run) == t1;
    } else {
      var second := Turn("b", 1.0, 0.0, t1);
      var t2, run, tail := After(l, second), [first, second], [second];
      assert Kept(l, t1, 0.0) == t1 && t2.Keys == {"a", "b"};
      assert tail[1..] == [] && LegalRun(l, t2, tail[1..]) && Final(l, t2, tail[1..]) == t2;
      assert LegalRun(l, t1, tail) && Final(l, t1, tail) == t2;
      assert run[1..] == tail;
      assert LegalRun(l, map[], run) && Final(l, map[], run) == t2;
      assert |t2| == |t2.Keys|;
    }
  }
}
