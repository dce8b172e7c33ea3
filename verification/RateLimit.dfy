/**
 Token-bucket rate limiting with a bounded table of buckets. Tokens and the monotonic clock are reals;
 floating-point rounding is not modelled.
 */
module RateLimit {

  datatype Bucket = Bucket(tokens: real, updated: real)

  type Table = map<string, Bucket>

  datatype Limits = Limits(rate: real, burst: real, maxKeys: nat)

  /** What the configuration's range checks establish. */
  predicate Configured(l: Limits) { l.rate > 0.0 && l.burst >= 1.0 }

  function Min(a: real, b: real): real { if a <= b then a else b }

  function Max(a: real, b: real): real { if a <= b then b else a }

  /** The tokens that come in over a time. */
  function Earned(l: Limits, time: real): real { time * l.rate }

  /** The tokens of a bucket at `now`, clamped at the burst size. */
  function Refill(l: Limits, b: Bucket, now: real): real
  {
    Min(l.burst, b.tokens + Earned(l, Max(0.0, now - b.updated)))
  }

  /** The bucket has refilled completely. */
  predicate Stale(l: Limits, b: Bucket, now: real)
  {
    b.tokens + Earned(l, now - b.updated) >= l.burst
  }

  function Kept(l: Limits, t: Table, now: real): Table
  {
    map k | k in t && !Stale(l, t[k], now) :: t[k]
  }

  /**
   The tables that eviction can leave: the buckets that are not stale, and if these still fill the
   table, all but the least recently touched half. Which of two equally old ones goes is open.
   */
  predicate Evicted(l: Limits, t: Table, now: real, left: Table)
  {
    var kept := Kept(l, t, now);
    if |kept| < l.maxKeys then left == kept
    else
      && left.Keys <= kept.Keys
      && (forall k :: k in left ==> left[k] == kept[k])
      && |left| == |kept| - |kept| / 2
      && forall v, k :: v in kept && v !in left && k in left ==> kept[v].updated <= kept[k].updated
  }

  /** One call, and the table that was left when it made room for its key. */
  datatype Turn = Turn(key: string, cost: real, now: real, left: Table)

  /** Room is made only for a new key in a full table. */
  predicate Legal(l: Limits, t: Table, turn: Turn)
  {
    if turn.key !in t && |t| >= l.maxKeys then Evicted(l, t, turn.now, turn.left) else turn.left == t
  }

  /** The caller's bucket when the tokens are counted. */
  function Presented(l: Limits, turn: Turn): Bucket
  {
    if turn.key in turn.left then Bucket(Refill(l, turn.left[turn.key], turn.now), turn.now)
    else Bucket(l.burst, turn.now)
  }

  predicate Admits(l: Limits, turn: Turn) { Presented(l, turn).tokens >= turn.cost }

  function After(l: Limits, turn: Turn): Table
  {
    var b := Presented(l, turn);
    turn.left[turn.key := if Admits(l, turn) then b.(tokens := b.tokens - turn.cost) else b]
  }

  class RateLimiter {
    const limits: Limits
    var buckets: Table

    constructor (perMinute: int, burst: int, maxKeys: nat)
      ensures limits == Limits(perMinute as real / 60.0, burst as real, maxKeys)
      ensures buckets == map[]
    {
      limits := Limits(perMinute as real / 60.0, burst as real, maxKeys);
      buckets := map[];
    }

    method Allow(key: string, cost: real, now: real) returns (allowed: bool, ghost turn: Turn)
      modifies this
      ensures turn.key == key && turn.cost == cost && turn.now == now
      ensures Legal(limits, old(buckets), turn)
      ensures buckets == After(limits, turn)
      ensures allowed <==> Admits(limits, turn)
    {
      var bucket;
      if key !in buckets {
        if |buckets| >= limits.maxKeys { Evict(now); }
        turn := Turn(key, cost, now, buckets);
        bucket := Bucket(limits.burst, now);
      } else {
        turn := Turn(key, cost, now, buckets);
        var elapsed := Max(0.0, now - buckets[key].updated);
        bucket := Bucket(Min(limits.burst, buckets[key].tokens + elapsed * limits.rate), now);
      }
      buckets := buckets[key := bucket];
      if bucket.tokens < cost { return false, turn; }
      buckets := buckets[key := bucket.(tokens := bucket.tokens - cost)];
      return true, turn;
    }

    method Evict(now: real)
      modifies this
      ensures Evicted(limits, old(buckets), now, buckets)
    {
      DropStale(now);
      if |buckets| >= limits.maxKeys { ForgetHalf(); }
    }

    method DropStale(now: real)
      modifies this
      ensures buckets == Kept(limits, old(buckets), now)
    {
      var stale := set k | k in buckets && Stale(limits, buckets[k], now);
      var todo := stale;
      while todo != {}
        invariant todo <= stale
        invariant buckets == map k | k in old(buckets) && (k !in stale || k in todo) :: old(buckets)[k]
        decreases todo
      {
        var key :| key in todo;
        buckets := buckets - {key};
        todo := todo - {key};
      }
    }

    /** Halves the table, oldest buckets first. */
    method ForgetHalf()
      modifies this
      ensures buckets.Keys <= old(buckets).Keys
      ensures forall k :: k in buckets ==> buckets[k] == old(buckets)[k]
      ensures |buckets| == |old(buckets)| - |old(buckets)| / 2
      ensures forall v, k :: v in old(buckets) && v !in buckets && k in buckets ==>
                old(buckets)[v].updated <= old(buckets)[k].updated
    {
      var ordered := SortedByUpdated(buckets);
      for i := 0 to |ordered| / 2
        invariant forall k :: k in buckets ==> k in old(buckets) && buckets[k] == old(buckets)[k]
        invariant forall j :: i <= j < |ordered| ==> ordered[j] in buckets
        invariant forall j :: 0 <= j < i ==> ordered[j] !in buckets
        invariant |buckets| == |old(buckets)| - i
      {
        assert buckets.Keys - {ordered[i]} == (buckets - {ordered[i]}).Keys;
        buckets := buckets - {ordered[i]};
      }
      forall v, k | v in old(buckets) && v !in buckets && k in buckets
        ensures old(buckets)[v].updated <= old(buckets)[k].updated
      {
        var i :| 0 <= i < |ordered| && ordered[i] == v;
        var j :| 0 <= j < |ordered| && ordered[j] == k;
        assert i < |ordered| / 2 <= j;
      }
    }
  }

  /** The keys in the order in which their buckets were last touched. */
  method SortedByUpdated(t: Table) returns (ordered: seq<string>)
    ensures |ordered| == |t|
    ensures forall i :: 0 <= i < |ordered| ==> ordered[i] in t
    ensures forall k :: k in t ==> k in ordered
    ensures forall i, j :: 0 <= i < j < |ordered| ==> ordered[i] != ordered[j]
    ensures forall i, j {:trigger ordered[i], ordered[j]} :: 0 <= i < j < |ordered| ==>
              t[ordered[i]].updated <= t[ordered[j]].updated
  {
    ordered := [];
    var todo := t.Keys;
    while todo != {}
      invariant todo <= t.Keys
      invariant |ordered| + |todo| == |t|
      invariant forall i :: 0 <= i < |ordered| ==> ordered[i] in t && ordered[i] !in todo
      invariant forall k :: k in t ==> k in ordered || k in todo
      invariant forall i, j :: 0 <= i < j < |ordered| ==> ordered[i] != ordered[j]
      invariant forall i, j {:trigger ordered[i], ordered[j]} :: 0 <= i < j < |ordered| ==>
                  t[ordered[i]].updated <= t[ordered[j]].updated
      invariant forall i, k :: 0 <= i < |ordered| && k in todo ==> t[ordered[i]].updated <= t[k].updated
      decreases todo
    {
      var oldest := Oldest(t, todo);
      ordered := ordered + [oldest];
      todo := todo - {oldest};
    }
  }

  method Oldest(t: Table, keys: set<string>) returns (oldest: string)
    requires keys != {} && keys <= t.Keys
    ensures oldest in keys && forall k :: k in keys ==> t[oldest].updated <= t[k].updated
  {
    oldest :| oldest in keys;
    var todo := keys - {oldest};
    while todo != {}
      invariant todo < keys && oldest in keys
      invariant forall k :: k in keys && k !in todo ==> t[oldest].updated <= t[k].updated
      decreases todo
    {
      var k :| k in todo;
      if t[k].updated < t[oldest].updated { oldest := k; }
      todo := todo - {k};
    }
  }
}
