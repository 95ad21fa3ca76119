/** The API server's idempotency cache: responses by cache key, valid for ten minutes, in a table that
    is pruned and evicted like the rate limiter's. */
module IdempotencyCache {
  import opened Text
  import opened BoundedTables

  // Times are nanoseconds.
  const TTL: nat := 10 * 60_000_000_000
  const LIMIT: nat := 2000

  datatype Entry<+V> = Entry(payload: V, expires: nat)

  type Table<V> = map<string, Entry<V>>

  // ---- One operation ----

  function Pruned<V>(t: Table<V>, now: nat): Table<V> {
    map k | k in t && now <= t[k].expires :: t[k]
  }

  function Swept<V>(t: Table<V>, now: nat): Table<V> {
    if |t| >= LIMIT then Pruned(t, now) else t
  }

  function ReadStep<V>(t: Table<V>, key: string, now: nat): (Table<V>, Option<V>) {
    if Trim(key) == "" || key !in t then (t, None)
    else if now > t[key].expires then (t - {key}, None)
    else (t, Some(t[key].payload))
  }

  function WriteStep<V>(t: Table<V>, key: string, payload: V, now: nat, evicted: set<string>): Table<V> {
    if Trim(key) == "" then t else (Swept(t, now) - evicted)[key := Entry(payload, now + TTL)]
  }

  class Cache<V> {
    var entries: Table<V>

    constructor ()
      ensures entries == map[]
    {
      entries := map[];
    }

    method ReadIdempotent(key: string, now: nat) returns (r: Option<V>)
      modifies this
      ensures (entries, r) == ReadStep(old(entries), key, now)
    {
      if Trim(key) == "" || key !in entries {
        return None;
      }
      var entry := entries[key];
      if now > entry.expires {
        entries := entries - {key};
        return None;
      }
      return Some(entry.payload);
    }

    method PruneIdempotency(now: nat)
      modifies this
      ensures entries == Pruned(old(entries), now)
    {
      var left := entries.Keys;
      while left != {}
        invariant left <= entries.Keys <= old(entries).Keys
        invariant forall k | k in entries :: entries[k] == old(entries)[k]
        invariant forall k | k in old(entries) && k !in left :: k in entries <==> now <= old(entries)[k].expires
      {
        var key :| key in left;
        if now > entries[key].expires {
          entries := entries - {key};
        }
        left := left - {key};
      }
    }

    method WriteIdempotent(key: string, payload: V, now: nat) returns (ghost evicted: set<string>)
      modifies this
      ensures Trim(key) != "" ==> MayEvict(Swept(old(entries), now), LIMIT, evicted)
      ensures entries == WriteStep(old(entries), key, payload, now, evicted)
    {
      evicted := {};
      if Trim(key) == "" {
        return;
      }
      if |entries| >= LIMIT {
        PruneIdempotency(now);
      }
      assert entries == Swept(old(entries), now);
      entries, evicted := Evict(entries, LIMIT);
      entries := entries[key := Entry(payload, now + TTL)];
    }
  }

  // ---- Runs ----

  datatype Op<+V> = Read(key: string, now: nat) | Write(key: string, payload: V, now: nat, evicted: set<string>)

  function Apply<V>(t: Table<V>, op: Op<V>): Table<V> {
    match op
    case Read(key, now) => ReadStep(t, key, now).0
    case Write(key, payload, now, evicted) => WriteStep(t, key, payload, now, evicted)
  }

  /** The table after a run of operations, starting empty. */
  function State<V>(ops: seq<Op<V>>): Table<V> {
    if ops == [] then map[] else Apply(State(ops[..|ops| - 1]), ops[|ops| - 1])
  }

  ghost function LatestTime<V>(ops: seq<Op<V>>): nat {
    if ops == [] then 0 else ops[|ops| - 1].now
  }

  /** A write's evictions are ones the loop can make. */
  ghost predicate Allowed<V>(t: Table<V>, op: Op<V>) {
    op.Write? && Trim(op.key) != "" ==> MayEvict(Swept(t, op.now), LIMIT, op.evicted)
  }

  /** The clock never goes back, and evictions are ones the loop can make. */
  ghost predicate Possible<V>(ops: seq<Op<V>>) {
    ops == [] ||
    (Possible(ops[..|ops| - 1]) && LatestTime(ops[..|ops| - 1]) <= LatestTime(ops) &&
     Allowed(State(ops[..|ops| - 1]), ops[|ops| - 1]))
  }

  /** The most recent write to a key and its time, unless the key was evicted after it. This never looks
      at the table, its size, or its pruning. */
  function LastWrite<V>(ops: seq<Op<V>>, key: string): Option<(V, nat)> {
    if ops == [] then None
    else
      var before := LastWrite(ops[..|ops| - 1], key);
      match ops[|ops| - 1]
      case Read(_, _) => before
      case Write(k, payload, now, evicted) =>
        if Trim(k) == "" then before
        else if k == key then Some((payload, now))
        else if key in evicted then None
        else before
  }

  /** What a read should answer: the last write's payload for as long as the TTL lasts. */
  function Remembered<V>(ops: seq<Op<V>>, key: string, now: nat): Option<V> {
    match LastWrite(ops, key)
    case Some((payload, at)) => if now <= at + TTL then Some(payload) else None
    case None => None
  }

  /** Sweeping drops exactly the entries past their time, and only from a table of at least 2000 entries; a
      read drops the entry it finds past its time, and nothing else. */
  lemma SweptExactly<V>(t: Table<V>, now: nat, k: string, key: string)
    ensures k in Pruned(t, now) <==> k in t && now <= t[k].expires
    ensures k in Pruned(t, now) ==> Pruned(t, now)[k] == t[k]
    ensures Swept(t, now) == if |t| >= 2000 then Pruned(t, now) else t
    ensures ReadStep(t, key, now).0 ==
            if Trim(key) != "" && key in t && now > t[key].expires then t - {key} else t
  {
  }

  /** A payload is remembered for 600 seconds after its write. */
  lemma RememberedExactly<V>(ops: seq<Op<V>>, key: string, now: nat)
    ensures var last := LastWrite(ops, key);
            Remembered(ops, key, now) ==
            if last.Some? && now - last.value.1 <= 600_000_000_000 then Some(last.value.0) else None
  {
  }

  /** For one key: the table holds the last write, or nothing that a read could still need. */
  ghost predicate Faithful<V>(ops: seq<Op<V>>, key: string) {
    var t := State(ops);
    match LastWrite(ops, key)
    case Some((payload, at)) =>
      && at <= LatestTime(ops) && Trim(key) != ""
      && (if key in t then t[key] == Entry(payload, at + TTL) else at + TTL < LatestTime(ops))
    case None => key !in t
  }

  lemma {:induction false} StateFaithful<V>(ops: seq<Op<V>>, key: string)
    requires Possible(ops)
    ensures Faithful(ops, key)
  {
    if ops != [] {
      hide MayEvict;
      StateFaithful(ops[..|ops| - 1], key);
    }
  }

  /** The bounded cache answers every read as an unbounded one that only forgets evicted keys: a hit
      returns the payload of the most recent write to the key, at most ten minutes after it; a miss
      within that time happens only if the eviction loop deleted the key since. Pruning never shows. */
  lemma CacheExact<V>(ops: seq<Op<V>>, key: string, now: nat)
    requires Possible(ops) && LatestTime(ops) <= now
    ensures ReadStep(State(ops), key, now).1 == Remembered(ops, key, now)
  {
    StateFaithful(ops, key);
  }

  lemma PrunedSmaller<V>(t: Table<V>, now: nat)
    ensures |Swept(t, now)| <= |t|
  {
    var stale := t.Keys - Pruned(t, now).Keys;
    assert Pruned(t, now) == t - stale;
    RemovedSize(t, stale);
  }

  /** The table never holds more than 2000 responses. */
  lemma {:induction false} TableBound<V>(ops: seq<Op<V>>)
    requires Possible(ops)
    ensures |State(ops)| <= 2000
  {
    if ops != [] {
      var t, op := State(ops[..|ops| - 1]), ops[|ops| - 1];
      TableBound(ops[..|ops| - 1]);
      match op
      case Read(key, now) =>
        if key in t {
          RemovedSize(t, {key});
        }
      case Write(key, payload, now, evicted) =>
        if Trim(key) != "" {
          var swept := Swept(t, now);
          PrunedSmaller(t, now);
          KeptSize(swept, LIMIT, evicted);
          InsertSize(swept - evicted, key, Entry(payload, now + TTL));
        }
    }
  }
}
