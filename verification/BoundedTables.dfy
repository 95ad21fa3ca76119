/** Sizes of maps under removal and insertion, and the eviction both in-memory tables of the API
    server share: when full, entries go in arbitrary order until fewer than half the limit are left. */
module BoundedTables {
  lemma RemovedSize<V>(m: map<string, V>, s: set<string>)
    requires s <= m.Keys
    ensures |m - s| == |m| - |s|
  {
    assert (m - s).Keys == m.Keys - s;
    assert |m.Keys - s| == |m.Keys| - |s|;
  }

  lemma InsertSize<V>(m: map<string, V>, key: string, value: V)
    ensures |m[key := value]| == |m| + if key in m then 0 else 1
  {
    assert m[key := value].Keys == m.Keys + {key};
    assert key in m ==> m.Keys + {key} == m.Keys;
  }

  /** The keys the eviction loop may delete from a table. */
  ghost predicate MayEvict<V>(m: map<string, V>, limit: nat, evicted: set<string>) {
    if |m| >= limit then evicted <= m.Keys && |m| - |evicted| == limit / 2 - 1 else evicted == {}
  }

  lemma OneMore<V>(m: map<string, V>, evicted: set<string>, key: string)
    requires evicted <= m.Keys && key in m - evicted
    ensures m - evicted - {key} == m - (evicted + {key})
    ensures |m - evicted - {key}| == |m - evicted| - 1 && |evicted + {key}| == |evicted| + 1
  {
    RemovedSize(m - evicted, {key});
  }

  /** The eviction loop. */
  method Evict<V>(m: map<string, V>, limit: nat) returns (kept: map<string, V>, ghost evicted: set<string>)
    requires limit >= 2
    ensures MayEvict(m, limit, evicted) && kept == m - evicted
    ensures |m| < limit ==> kept == m
    ensures |m| >= limit ==> |kept| == limit / 2 - 1
  {
    kept, evicted := m, {};
    assert m - {} == m;
    if |kept| >= limit {
      while true
        invariant evicted <= m.Keys && kept == m - evicted
        invariant |kept| == |m| - |evicted| && |kept| >= limit / 2
        decreases |kept|
      {
        var key :| key in kept;
        OneMore(m, evicted, key);
        kept := kept - {key};
        evicted := evicted + {key};
        if |kept| < limit / 2 {
          return;
        }
      }
    }
  }

  lemma KeptSize<V>(m: map<string, V>, limit: nat, evicted: set<string>)
    requires MayEvict(m, limit, evicted)
    ensures |m - evicted| == |m| - |evicted|
  {
    if evicted == {} {
      assert m - evicted == m;
    } else {
      RemovedSize(m, evicted);
    }
  }
}
