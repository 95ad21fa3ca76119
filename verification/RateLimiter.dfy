/** The API server's rate limiter: fixed one-minute windows, one bucket per client, a table that is
    pruned and, when that is not enough, emptied in arbitrary order down to less than half. */
module RateLimiter {
  import opened BoundedTables

  // Times are nanoseconds.
  const MINUTE: nat := 60_000_000_000
  const BUCKET_TTL: nat := 10 * MINUTE
  const BUCKET_LIMIT: nat := 2000

  function Window(now: nat): nat {
    now - now % MINUTE
  }

  datatype Bucket = Bucket(start: nat, count: nat, seenAt: nat)

  type Table = map<string, Bucket>

  // ---- One request ----

  predicate Expired(b: Bucket, now: nat) {
    now > b.seenAt + BUCKET_TTL
  }

  /** The table without the buckets unseen for longer than the TTL. */
  function Pruned(t: Table, now: nat): Table {
    map k | k in t && !Expired(t[k], now) :: t[k]
  }

  /** The table as pruning leaves it; it is pruned only when full. */
  function Swept(t: Table, now: nat): Table {
    if |t| >= BUCKET_LIMIT then Pruned(t, now) else t
  }

  /** The table is still full after pruning, so the eviction loop runs. */
  predicate EvictionRuns(t: Table, now: nat) {
    |Swept(t, now)| >= BUCKET_LIMIT
  }

  /** The bucket of a client after a request, and whether it is admitted. */
  function Counted(found: Bucket, limit: nat, now: nat): (Bucket, bool) {
    var current := if found.start != Window(now) then Bucket(Window(now), 0, now) else found.(seenAt := now);
    if current.count >= limit then (current, false) else (current.(count := current.count + 1), true)
  }

  function BucketOf(t: Table, key: string, now: nat): Bucket {
    if key in t then t[key] else Bucket(Window(now), 0, now)
  }

  function Step(t: Table, limit: nat, key: string, now: nat, evicted: set<string>): (Table, bool) {
    var kept := Swept(t, now) - evicted;
    var (bucket, ok) := Counted(BucketOf(kept, key, now), limit, now);
    (kept[key := bucket], ok)
  }

  class Limiter {
    const rateLimit: int
    var buckets: Table

    /** A missing or non-positive rate means 120 a minute. */
    constructor (rate: int)
      ensures rateLimit == (if rate <= 0 then 120 else rate) && buckets == map[]
    {
      rateLimit := if rate <= 0 then 120 else rate;
      buckets := map[];
    }

    method PruneRateBuckets(now: nat)
      modifies this
      ensures buckets == Pruned(old(buckets), now)
    {
      var left := buckets.Keys;
      while left != {}
        invariant left <= buckets.Keys <= old(buckets).Keys
        invariant forall k | k in buckets :: buckets[k] == old(buckets)[k]
        invariant forall k | k in old(buckets) && k !in left :: k in buckets <==> !Expired(old(buckets)[k], now)
      {
        var key :| key in left;
        if Expired(buckets[key], now) {
          buckets := buckets - {key};
        }
        left := left - {key};
      }
    }

    method AllowRate(key: string, now: nat) returns (ok: bool, ghost evicted: set<string>)
      modifies this
      ensures rateLimit > 0 ==> MayEvict(Swept(old(buckets), now), BUCKET_LIMIT, evicted) &&
                                (buckets, ok) == Step(old(buckets), rateLimit, key, now, evicted)
      ensures rateLimit <= 0 ==> ok && buckets == old(buckets)
    {
      evicted := {};
      if rateLimit <= 0 {
        return true, evicted;
      }
      if |buckets| >= BUCKET_LIMIT {
        PruneRateBuckets(now);
      }
      assert buckets == Swept(old(buckets), now);
      buckets, evicted := Evict(buckets, BUCKET_LIMIT);
      ok := CountRequest(key, now);
    }

    /** The client's bucket, made if missing, moved to the current minute if it is older, and counted. */
    method CountRequest(key: string, now: nat) returns (ok: bool)
      requires rateLimit > 0
      modifies this
      ensures var (bucket, allowed) := Counted(BucketOf(old(buckets), key, now), rateLimit, now);
              buckets == old(buckets)[key := bucket] && ok == allowed
    {
      ghost var kept := buckets;
      var window := Window(now);
      if key !in buckets {
        buckets := buckets[key := Bucket(window, 0, now)];
      }
      if buckets[key].start != window {
        buckets := buckets[key := buckets[key].(start := window, count := 0)];
      }
      buckets := buckets[key := buckets[key].(seenAt := now)];
      assert buckets == kept[key := buckets[key]];
      if buckets[key].count >= rateLimit {
        return false;
      }
      buckets := buckets[key := buckets[key].(count := buckets[key].count + 1)];
      assert buckets == kept[key := buckets[key]];
      return true;
    }
  }

  // ---- Runs ----

  /** A request with the keys the eviction loop happened to delete during it. */
  datatype Request = Request(key: string, now: nat, evicted: set<string>)

  /** The table after a run of requests, starting empty. */
  function State(limit: nat, run: seq<Request>): Table {
    if run == [] then map[]
    else
      var r := run[|run| - 1];
      Step(State(limit, run[..|run| - 1]), limit, r.key, r.now, r.evicted).0
  }

  /** Whether request i of a run is admitted. */
  predicate Allowed(limit: nat, run: seq<Request>, i: nat)
    requires i < |run|
  {
    Step(State(limit, run[..i]), limit, run[i].key, run[i].now, run[i].evicted).1
  }

  /** The clock never goes back, and evictions are ones the loop can make. */
  ghost predicate Possible(limit: nat, run: seq<Request>) {
    && (forall i, j | 0 <= i < j < |run| :: run[i].now <= run[j].now)
    && (forall i | 0 <= i < |run| :: MayEvict(Swept(State(limit, run[..i]), run[i].now), BUCKET_LIMIT, run[i].evicted))
  }

  /** Requests of a client in a minute, admitted or not. */
  function Requested(run: seq<Request>, key: string, w: nat): nat {
    if run == [] then 0
    else
      var r := run[|run| - 1];
      Requested(run[..|run| - 1], key, w) + if r.key == key && Window(r.now) == w then 1 else 0
  }

  function Admitted(limit: nat, run: seq<Request>, key: string, w: nat): nat {
    if run == [] then 0
    else
      var n := |run| - 1;
      Admitted(limit, run[..n], key, w) +
      if run[n].key == key && Window(run[n].now) == w && Allowed(limit, run, n) then 1 else 0
  }

  /** How often the client's bucket was evicted in a minute. */
  function Evictions(run: seq<Request>, key: string, w: nat): nat {
    if run == [] then 0
    else
      var r := run[|run| - 1];
      Evictions(run[..|run| - 1], key, w) + if key in r.evicted && Window(r.now) == w then 1 else 0
  }

  /** What the table remembers of a client's minute. */
  function Held(t: Table, key: string, w: nat): nat {
    if key in t && t[key].start == w then t[key].count else 0
  }

  function LastWindow(run: seq<Request>): nat {
    if run == [] then 0 else Window(run[|run| - 1].now)
  }

  lemma WindowMonotone(a: nat, b: nat)
    requires a <= b
    ensures Window(a) <= Window(b)
  {
    assert Window(a) == MINUTE * (a / MINUTE) && Window(b) == MINUTE * (b / MINUTE);
  }

  /** Windows are whole minutes of 60 seconds; buckets expire once unseen for more than 600 seconds. */
  lemma MinutesExactly(a: nat, b: nat, bucket: Bucket)
    ensures Window(a) == Window(b) <==> a / 60_000_000_000 == b / 60_000_000_000
    ensures Window(a) <= a < Window(a) + 60_000_000_000
    ensures Expired(bucket, a) <==> a - bucket.seenAt > 600_000_000_000
  {
    assert Window(a) == MINUTE * (a / MINUTE) && Window(b) == MINUTE * (b / MINUTE);
  }

  /** Sweeping drops exactly the buckets unseen for more than 600 seconds, and only from a table of at least
      2000 buckets. */
  lemma SweptExactly(t: Table, now: nat, k: string)
    ensures k in Pruned(t, now) <==> k in t && now - t[k].seenAt <= 600_000_000_000
    ensures k in Pruned(t, now) ==> Pruned(t, now)[k] == t[k]
    ensures Swept(t, now) == if |t| >= 2000 then Pruned(t, now) else t
  {
  }

  /** A bucket old enough to be pruned belongs to an earlier minute. */
  lemma ExpiredIsOld(b: Bucket, now: nat)
    requires b.start == Window(b.seenAt) && Expired(b, now)
    ensures b.start < Window(now)
  {
  }

  /** Every bucket lies in the minute it was last seen, was last seen in the run, and is within the limit. */
  ghost predicate Sound(t: Table, limit: nat, latest: nat) {
    forall k | k in t :: t[k].start == Window(t[k].seenAt) && t[k].seenAt <= latest && t[k].count <= limit
  }

  lemma SweptHeld(t: Table, limit: nat, latest: nat, now: nat, key: string)
    requires Sound(t, limit, latest) && latest <= now
    ensures Sound(Swept(t, now), limit, now) && Held(Swept(t, now), key, Window(now)) == Held(t, key, Window(now))
  {
    if key in t && Expired(t[key], now) {
      ExpiredIsOld(t[key], now);
    }
  }

  lemma StepSound(t: Table, limit: nat, latest: nat, r: Request)
    requires Sound(t, limit, latest) && latest <= r.now
    ensures Sound(Step(t, limit, r.key, r.now, r.evicted).0, limit, r.now)
  {
    SweptHeld(t, limit, latest, r.now, r.key);
  }

  ghost function Latest(run: seq<Request>): nat {
    if run == [] then 0 else run[|run| - 1].now
  }

  lemma {:induction false} StateSound(limit: nat, run: seq<Request>)
    requires Possible(limit, run)
    ensures Sound(State(limit, run), limit, Latest(run))
  {
    if run != [] {
      var n := |run| - 1;
      PossiblePrefix(limit, run, n);
      StateSound(limit, run[..n]);
      StepSound(State(limit, run[..n]), limit, Latest(run[..n]), run[n]);
    }
  }

  lemma PossiblePrefix(limit: nat, run: seq<Request>, n: nat)
    requires Possible(limit, run) && n <= |run|
    ensures Possible(limit, run[..n])
  {
    forall i | 0 <= i < n ensures MayEvict(Swept(State(limit, run[..n][..i]), run[..n][i].now), BUCKET_LIMIT,
                                           run[..n][i].evicted) {
      assert run[..n][..i] == run[..i];
    }
  }

  /** Nothing has happened yet in minutes after the last request. */
  lemma {:induction false} FutureEmpty(limit: nat, run: seq<Request>, key: string, w: nat)
    requires Possible(limit, run) && (run == [] || LastWindow(run) < w)
    ensures Admitted(limit, run, key, w) == 0 && Evictions(run, key, w) == 0 && Requested(run, key, w) == 0
  {
    if run != [] {
      var n := |run| - 1;
      PossiblePrefix(limit, run, n);
      if n > 0 {
        WindowMonotone(run[n - 1].now, run[n].now);
      }
      FutureEmpty(limit, run[..n], key, w);
    }
  }

  function Min(a: nat, b: nat): nat {
    if a < b then a else b
  }

  /** What the table holds of the current minute accounts for everything admitted in it that was not
      forgotten by an eviction. */
  ghost predicate Accounts(limit: nat, run: seq<Request>, key: string, w: nat) {
    var held := Held(State(limit, run), key, w);
    && held <= limit
    && Admitted(limit, run, key, w) <= limit * Evictions(run, key, w) + held
    && (Evictions(run, key, w) == 0 ==> held == Admitted(limit, run, key, w) == Min(limit, Requested(run, key, w)))
  }

  lemma {:induction false} CurrentMinute(limit: nat, run: seq<Request>, key: string, w: nat)
    requires Possible(limit, run) && (run == [] || LastWindow(run) <= w)
    ensures Accounts(limit, run, key, w)
  {
    if run != [] {
      var n := |run| - 1;
      var r := run[n];
      var before := run[..n];
      PossiblePrefix(limit, run, n);
      if n > 0 {
        WindowMonotone(run[n - 1].now, r.now);
      }
      CurrentMinute(limit, before, key, w);
      StateSound(limit, before);
      if Window(r.now) == w {
        assert MayEvict(Swept(State(limit, before), r.now), BUCKET_LIMIT, r.evicted);
        CountedStep(limit, run, key, w);
      } else {
        FutureEmpty(limit, run, key, w);
        StateSound(limit, run);
        FutureHeld(limit, run, key, w);
      }
    }
  }

  lemma FutureHeld(limit: nat, run: seq<Request>, key: string, w: nat)
    requires run != [] && LastWindow(run) < w && Sound(State(limit, run), limit, Latest(run))
    ensures Held(State(limit, run), key, w) == 0
  {
    var t := State(limit, run);
    if key in t {
      WindowMonotone(t[key].seenAt, Latest(run));
    }
  }

  /** Counting one request of the current minute in a table. */
  lemma CountingHeld(kept: Table, limit: nat, r: Request, key: string)
    requires Held(kept, key, Window(r.now)) <= limit
    ensures var (bucket, ok) := Counted(BucketOf(kept, r.key, r.now), limit, r.now);
            Held(kept[r.key := bucket], key, Window(r.now)) ==
              Held(kept, key, Window(r.now)) + (if r.key == key && ok then 1 else 0)
    ensures var ok := Counted(BucketOf(kept, r.key, r.now), limit, r.now).1;
            r.key == key ==> (ok <==> Held(kept, key, Window(r.now)) < limit)
  {
  }

  lemma CountedStep(limit: nat, run: seq<Request>, key: string, w: nat)
    requires run != [] && Window(run[|run| - 1].now) == w
    requires Accounts(limit, run[..|run| - 1], key, w)
    requires Sound(State(limit, run[..|run| - 1]), limit, Latest(run[..|run| - 1]))
    requires Latest(run[..|run| - 1]) <= run[|run| - 1].now
    ensures Accounts(limit, run, key, w)
  {
    hide Counted, BucketOf, Swept, Sound, Latest;
    var n := |run| - 1;
    var r := run[n];
    var t := State(limit, run[..n]);
    SweptHeld(t, limit, Latest(run[..n]), r.now, key);
    var swept := Swept(t, r.now);
    KeptHeld(swept, r.evicted, key, w);
    CountingHeld(swept - r.evicted, limit, r, key);
    var e := Evictions(run[..n], key, w);
    assert limit * (e + 1) == limit * e + limit;
  }

  lemma KeptHeld(t: Table, evicted: set<string>, key: string, w: nat)
    ensures Held(t - evicted, key, w) == if key in evicted then 0 else Held(t, key, w)
  {
  }

  /** The limiter is an unbounded fixed-window counter as long as the client's bucket is not evicted in
      the minute: a request is admitted exactly when fewer than the limit of requests of the same
      client came before it in the same minute. Pruning never shows. */
  lemma LimiterExact(limit: nat, run: seq<Request>, i: nat)
    requires Possible(limit, run) && i < |run|
    requires Evictions(run[..i + 1], run[i].key, Window(run[i].now)) == 0
    ensures Allowed(limit, run, i) <==> Requested(run[..i], run[i].key, Window(run[i].now)) < limit
  {
    hide Counted, BucketOf, Swept, Sound;
    var r := run[i];
    var before, w := run[..i], Window(r.now);
    assert run[..i + 1][..i] == before;
    PossiblePrefix(limit, run, i);
    if i > 0 {
      WindowMonotone(run[i - 1].now, r.now);
    }
    CurrentMinute(limit, before, r.key, w);
    StateSound(limit, before);
    SweptHeld(State(limit, before), limit, Latest(before), r.now, r.key);
    KeptHeld(Swept(State(limit, before), r.now), r.evicted, r.key, w);
    CountingHeld(Swept(State(limit, before), r.now) - r.evicted, limit, r, r.key);
  }

  /** With evictions, a client gets at most one more allowance for each time its bucket was evicted in
      the minute. */
  lemma {:induction false} BoundedAdmission(limit: nat, run: seq<Request>, key: string, w: nat)
    requires Possible(limit, run)
    ensures Admitted(limit, run, key, w) <= limit * (1 + Evictions(run, key, w))
  {
    hide Possible, Accounts, Allowed;
    if run == [] || LastWindow(run) <= w {
      CurrentMinute(limit, run, key, w);
      AccountsBound(limit, run, key, w);
    } else {
      PossiblePrefix(limit, run, |run| - 1);
      BoundedAdmission(limit, run[..|run| - 1], key, w);
    }
  }

  lemma AccountsBound(limit: nat, run: seq<Request>, key: string, w: nat)
    requires Accounts(limit, run, key, w)
    ensures Admitted(limit, run, key, w) <= limit * (1 + Evictions(run, key, w))
  {
    hide State, Held, Admitted, Evictions, Requested;
    assert limit * (1 + Evictions(run, key, w)) == limit * Evictions(run, key, w) + limit;
  }

  // ---- Sizes ----

  /** Request i makes a new bucket. */
  predicate Creates(limit: nat, run: seq<Request>, i: nat)
    requires i < |run|
  {
    run[i].key !in Swept(State(limit, run[..i]), run[i].now) - run[i].evicted
  }

  lemma SweptSmaller(t: Table, now: nat)
    ensures |Swept(t, now)| <= |t|
  {
    hide Expired;
    var stale := t.Keys - Pruned(t, now).Keys;
    assert Pruned(t, now) == t - stale;
    RemovedSize(t, stale);
  }

  lemma StepSize(t: Table, limit: nat, r: Request)
    requires |t| <= BUCKET_LIMIT && MayEvict(Swept(t, r.now), BUCKET_LIMIT, r.evicted)
    ensures var created := if r.key in Swept(t, r.now) - r.evicted then 0 else 1;
            var size := |Step(t, limit, r.key, r.now, r.evicted).0|;
            && size <= |t| + created && size <= BUCKET_LIMIT
            && (EvictionRuns(t, r.now) ==> size <= BUCKET_LIMIT / 2)
  {
    hide Counted, BucketOf, Swept;
    SweptSmaller(t, r.now);
    KeptSize(Swept(t, r.now), BUCKET_LIMIT, r.evicted);
    var kept := Swept(t, r.now) - r.evicted;
    InsertSize(kept, r.key, Counted(BucketOf(kept, r.key, r.now), limit, r.now).0);
  }

  /** The table never holds more than 2000 buckets. */
  lemma {:induction false} TableBound(limit: nat, run: seq<Request>)
    requires Possible(limit, run)
    ensures |State(limit, run)| <= 2000
  {
    if run != [] {
      var n := |run| - 1;
      PossiblePrefix(limit, run, n);
      TableBound(limit, run[..n]);
      StepSize(State(limit, run[..n]), limit, run[n]);
    }
  }

  /** New buckets made by the requests from number `from` up to, not including, number `to`. */
  function Creations(limit: nat, run: seq<Request>, from: nat, to: nat): nat
    requires to <= |run|
  {
    if to <= from then 0
    else Creations(limit, run, from, to - 1) + if Creates(limit, run, to - 1) then 1 else 0
  }

  lemma {:induction false} GrowthByCreation(limit: nat, run: seq<Request>, from: nat, to: nat)
    requires Possible(limit, run) && from <= to <= |run|
    ensures |State(limit, run[..to])| <= |State(limit, run[..from])| + Creations(limit, run, from, to)
  {
    hide Step, Swept, MayEvict, Possible, State;
    if from < to {
      GrowthByCreation(limit, run, from, to - 1);
      MayEvictAt(limit, run, to - 1);
      StateNext(limit, run, to - 1);
      PossiblePrefix(limit, run, to - 1);
      TableBound(limit, run[..to - 1]);
      StepSize(State(limit, run[..to - 1]), limit, run[to - 1]);
    }
  }

  lemma StateNext(limit: nat, run: seq<Request>, i: nat)
    requires i < |run|
    ensures State(limit, run[..i + 1]) ==
            Step(State(limit, run[..i]), limit, run[i].key, run[i].now, run[i].evicted).0
  {
    assert run[..i + 1][..i] == run[..i];
  }

  /** Between two requests that run the eviction loop at least 1000 new buckets are made. */
  lemma EvictionSpacing(limit: nat, run: seq<Request>, i: nat, j: nat)
    requires Possible(limit, run) && i < j < |run|
    requires EvictionRuns(State(limit, run[..i]), run[i].now) && EvictionRuns(State(limit, run[..j]), run[j].now)
    ensures Creations(limit, run, i + 1, j) >= 1000
  {
    hide Step, MayEvict;
    PossiblePrefix(limit, run, i);
    TableBound(limit, run[..i]);
    MayEvictAt(limit, run, i);
    StepSize(State(limit, run[..i]), limit, run[i]);
    StateNext(limit, run, i);
    GrowthByCreation(limit, run, i + 1, j);
    SweptSmaller(State(limit, run[..j]), run[j].now);
  }

  lemma MayEvictAt(limit: nat, run: seq<Request>, i: nat)
    requires Possible(limit, run) && i < |run|
    ensures MayEvict(Swept(State(limit, run[..i]), run[i].now), BUCKET_LIMIT, run[i].evicted)
  {
  }
}
