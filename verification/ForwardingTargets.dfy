/** Managing forwarding targets: Add and Update over the stored rows. */
module ForwardingTargets {
  import opened Text
  import R = RetryPolicies
  import F = EventFilters

  /** A stored row; filter, headers and policy are in their stored forms. */
  datatype Row = Row(
    provider: string, name: string, url: string, enabled: bool, headers: F.Headers, filter: F.Filter, policy: R.Stored)

  datatype AddInput = AddInput(
    provider: string, knownProvider: bool, name: string, url: string, enabled: bool, headers: F.Headers,
    filter: F.Filter, policy: R.RetryPolicy)

  /** None leaves a field as it is; so do a blank name and URL. */
  datatype UpdateInput = UpdateInput(
    id: string, name: string, url: string, enabled: Option<bool>, headers: Option<F.Headers>,
    filter: Option<F.Filter>, policy: Option<R.RetryPolicy>)

  /** Rows as the service writes them: usable name and URL, headers with values, the filter
      trimmed, and a policy that passes validation and survives another save/load trip. */
  ghost predicate Normal(lib: F.Library, row: Row) {
    && Trim(row.name) != "" && Trim(row.url) != ""
    && F.NonEmpty(row.headers) == row.headers
    && F.IsStored(row.filter, row.filter)
    && R.Representable(R.Load(row.policy)) && R.Save(R.Load(row.policy)) == row.policy
  }

  /** The policy a send to the target uses. */
  function Effective(row: Row): R.RetryPolicy {
    R.WithDefaults(R.Load(row.policy))
  }

  /** No field of the policy is negative; zero asks for the default. */
  predicate NonNegative(p: R.RetryPolicy) {
    p.maxAttempts >= 0 && p.timeout >= 0 && p.backoff >= 0
  }

  class Service {
    const lib: F.Library
    var rows: map<string, Row>

    ghost predicate Valid()
      reads this
    {
      forall id | id in rows :: Normal(lib, rows[id])
    }

    constructor (lib: F.Library)
      ensures this.lib == lib && rows == map[] && Valid()
    {
      this.lib := lib;
      rows := map[];
    }

    /** `id` is the new row's id; `fails` says whether the database refuses the insert. */
    method Add(input: AddInput, id: string, fails: bool) returns (ok: bool)
      requires Valid() && R.Representable(input.policy) && id !in rows
      modifies this
      ensures Valid()
      ensures !ok ==> rows == old(rows)
      ensures ok <==> input.knownProvider && Trim(input.name) != "" && Trim(input.url) != "" &&
                      NonNegative(input.policy) && !fails
      ensures ok ==>
                && rows.Keys == old(rows).Keys + {id} && (forall k | k in old(rows) :: rows[k] == old(rows)[k])
                && rows[id].(filter := map[], policy := R.Stored(0, 0, 0)) ==
                     Row(input.provider, Trim(input.name), Trim(input.url), input.enabled, F.NonEmpty(input.headers),
                         map[], R.Stored(0, 0, 0))
                && F.IsStored(input.filter, rows[id].filter)
                && R.Load(rows[id].policy) == R.Reloaded(R.ApplyRetryDefaults(input.policy))
    {
      hide Trim, F.IsStored, F.Canonical, F.NonEmpty, R.Save, R.Load, R.Representable;
      if !input.knownProvider {
        return false;
      }
      var name := Trim(input.name);
      if name == "" {
        return false;
      }
      var url := Trim(input.url);
      if url == "" {
        return false;
      }
      if !R.ValidInput(input.policy) {
        return false;
      }
      var policy := R.ApplyRetryDefaults(input.policy);
      if !R.Valid(policy) {
        return false;
      }
      var headers := F.HeadersToJSON(input.headers);
      var filter := F.EventFilterToJSON(input.filter);
      if fails {
        return false;
      }
      var row := Row(input.provider, name, url, input.enabled, headers, filter, R.Save(policy));
      DefaultsRepresentable(input.policy);
      TrimTwice(input.name);
      TrimTwice(input.url);
      NonEmptyHeaders(input.headers);
      SavedIsNormal(lib, row, input.filter, policy);
      rows := rows[id := row];
      return true;
    }

    method Update(input: UpdateInput, fails: bool) returns (ok: bool)
      requires Valid()
      requires input.policy.Some? ==> R.Representable(input.policy.value)
      modifies this
      ensures Valid()
      ensures !ok ==> rows == old(rows)
      ensures ok <==> Trim(input.id) != "" && Trim(input.id) in old(rows) && !fails &&
                      (input.policy.Some? ==> NonNegative(input.policy.value))
      ensures ok ==> Trim(input.id) in old(rows) && rows.Keys == old(rows).Keys &&
                     (forall k | k in rows && k != Trim(input.id) :: rows[k] == old(rows)[k]) &&
                     Updated(lib, old(rows)[Trim(input.id)], rows[Trim(input.id)], input)
    {
      hide Trim, Normal, Updated;
      var id := Trim(input.id);
      if id == "" || id !in rows {
        return false;
      }
      var row := UpdatedRow(rows[id], input);
      if row.None? || fails {
        return false;
      }
      rows := rows[id := row.value];
      return true;
    }

    /** The row an Update writes over `was`, or None when it is refused. */
    method UpdatedRow(was: Row, input: UpdateInput) returns (r: Option<Row>)
      requires Normal(lib, was)
      requires input.policy.Some? ==> R.Representable(input.policy.value)
      ensures r.Some? <==> (input.policy.Some? ==> NonNegative(input.policy.value))
      ensures r.Some? ==> Normal(lib, r.value) && Updated(lib, was, r.value, input)
    {
      hide Trim, F.IsStored, F.Canonical, F.NonEmpty, R.Save, R.Load, R.Representable, R.ApplyRetryDefaults,
           R.WithDefaults, R.Reloaded, Effective, Normal, SavedHeaders;
      NormalText(lib, was);
      var policy := MergedPolicy(was, input);
      if policy.None? {
        return None;
      }
      var name := if Trim(input.name) != "" then Trim(input.name) else was.name;
      var url := if Trim(input.url) != "" then Trim(input.url) else was.url;
      var enabled := if input.enabled.Some? then input.enabled.value else was.enabled;
      TrimTwice(input.name);
      TrimTwice(input.url);
      if Trim(name) == "" || Trim(url) == "" {
        return None;
      }
      var savedHeaders := MergedHeaders(was, input);
      var savedFilter, filter := MergedFilter(was, input);
      var row := Row(was.provider, name, url, enabled, savedHeaders, savedFilter, R.Save(policy.value));
      SavedIsNormal(lib, row, filter, policy.value);
      UpdateKeepsTheRest(lib, was, row, input, filter, policy.value);
      r := Some(row);
    }

    method MergedHeaders(was: Row, input: UpdateInput) returns (saved: F.Headers)
      requires Normal(lib, was)
      ensures SavedHeaders(lib, was, input, saved) && F.NonEmpty(saved) == saved
    {
      hide F.Canonical, F.NonEmpty, F.IsStored, F.Added;
      var headers, order := F.HeadersFromJSON(lib, F.AsStored(was.headers));
      assert F.AsStored(was.headers).Keys == was.headers.Keys;
      F.AddedNonEmpty(lib, F.AsStored(was.headers), order);
      if F.Canonical(lib, was.headers) {
        F.CanonicalReload(lib, was.headers, order);
      }
      if input.headers.Some? {
        headers := input.headers.value;
      }
      saved := F.HeadersToJSON(headers);
      NonEmptyHeaders(headers);
    }

    method MergedFilter(was: Row, input: UpdateInput) returns (saved: F.Filter, ghost given: F.Filter)
      ensures given == (if input.filter.Some? then input.filter.value else was.filter) && F.IsStored(given, saved)
    {
      var filter := F.EventFilterFromJSON(was.filter);
      if input.filter.Some? {
        filter := input.filter.value;
      }
      given := filter;
      saved := F.EventFilterToJSON(filter);
    }

    /** The policy to store, after validation and both rounds of defaults; None when it is refused. */
    method MergedPolicy(was: Row, input: UpdateInput) returns (r: Option<R.RetryPolicy>)
      requires Normal(lib, was) && (input.policy.Some? ==> R.Representable(input.policy.value))
      ensures r.Some? <==> (input.policy.Some? ==> NonNegative(input.policy.value))
      ensures r.Some? ==> R.Representable(r.value) && r.value == R.ApplyRetryDefaults(GivenPolicy(was, input))
    {
      hide R.Save, R.Load, F.IsStored, F.Canonical, F.NonEmpty;
      var policy := R.Load(was.policy);
      if input.policy.Some? {
        if !R.ValidInput(input.policy.value) {
          return None;
        }
        policy := R.ApplyRetryDefaults(input.policy.value);
      }
      policy := R.ApplyRetryDefaults(policy);
      if !R.Valid(policy) {
        return None;
      }
      r := Some(policy);
    }
  }

  function GivenPolicy(was: Row, input: UpdateInput): R.RetryPolicy {
    if input.policy.Some? then R.ApplyRetryDefaults(input.policy.value) else R.Load(was.policy)
  }

  lemma NormalText(lib: F.Library, row: Row)
    requires Normal(lib, row)
    ensures Trim(row.name) != "" && Trim(row.url) != ""
  {
  }

  lemma TrimTwice(s: string)
    ensures Trim(Trim(s)) == Trim(s)
  {
  }

  lemma DefaultsRepresentable(p: R.RetryPolicy)
    requires R.Representable(p)
    ensures R.Representable(R.ApplyRetryDefaults(p)) && R.Representable(R.ApplyRetryDefaults(R.ApplyRetryDefaults(p)))
  {
  }

  lemma NonEmptyHeaders(headers: F.Headers)
    ensures F.NonEmpty(F.NonEmpty(headers)) == F.NonEmpty(headers)
  {
  }

  /** Headers given are stored, less names without values; headers left out are stored as they read back,
      which for canonical names is as they were. */
  ghost predicate SavedHeaders(lib: F.Library, was: Row, input: UpdateInput, saved: F.Headers) {
    && (input.headers.Some? ==> saved == F.NonEmpty(input.headers.value))
    && (input.headers.None? ==> F.Reread(lib, was.headers, saved))
    && (input.headers.None? && F.Canonical(lib, was.headers) ==> saved == was.headers)
  }

  /** What an accepted Update does to a row: fields given are stored (through the codecs), fields left
      out keep what they meant. In particular an unset policy keeps the policy a send uses. */
  ghost predicate Updated(lib: F.Library, was: Row, row: Row, input: UpdateInput) {
    && row.provider == was.provider
    && row.name == (if Trim(input.name) != "" then Trim(input.name) else was.name)
    && row.url == (if Trim(input.url) != "" then Trim(input.url) else was.url)
    && row.enabled == (if input.enabled.Some? then input.enabled.value else was.enabled)
    && SavedHeaders(lib, was, input, row.headers)
    && (input.filter.Some? ==> F.IsStored(input.filter.value, row.filter))
    && (input.filter.None? ==> row.filter == was.filter)
    && (input.policy.Some? ==> R.Load(row.policy) == R.Reloaded(R.ApplyRetryDefaults(input.policy.value)))
    && (input.policy.None? ==> Effective(row) == Effective(was))
  }

  lemma SavedIsNormal(lib: F.Library, row: Row, filter: F.Filter, policy: R.RetryPolicy)
    requires Trim(row.name) != "" && Trim(row.url) != ""
    requires F.NonEmpty(row.headers) == row.headers
    requires F.IsStored(filter, row.filter) && R.Representable(policy) && row.policy == R.Save(policy)
    ensures Normal(lib, row)
  {
    hide Trim, F.IsStored;
    SelfStored(filter, row.filter);
    R.ReloadTruncates(policy);
    SaveReloaded(policy);
  }

  lemma SelfStored(filter: F.Filter, stored: F.Filter)
    requires F.IsStored(filter, stored)
    ensures F.IsStored(stored, stored)
  {
    hide Trim;
    forall t | t in stored ensures F.Usable(stored, t) && Trim(t) == t && Trim(stored[t]) == stored[t] {
      F.StoredIsUsable(filter, stored, t);
    }
  }

  lemma SaveReloaded(p: R.RetryPolicy)
    requires R.Representable(p)
    ensures R.Save(R.Reloaded(p)) == R.Save(p)
  {
    R.ReloadTruncates(p);
    SecondsOfWhole(p.timeout);
    SecondsOfWhole(p.backoff);
  }

  lemma SecondsOfWhole(d: int)
    ensures R.TruncDiv(R.WholeSeconds(d), R.SECOND) == R.TruncDiv(d, R.SECOND)
  {
    var a := if d >= 0 then d else -d;
    assert a - a % R.SECOND == a / R.SECOND * R.SECOND;
    assert (a / R.SECOND * R.SECOND) / R.SECOND == a / R.SECOND;
  }

  lemma UpdateKeepsTheRest(lib: F.Library, was: Row, row: Row, input: UpdateInput, filter: F.Filter,
                           policy: R.RetryPolicy)
    requires Normal(lib, was) && F.IsStored(filter, row.filter)
    requires filter == if input.filter.Some? then input.filter.value else was.filter
    requires policy == R.ApplyRetryDefaults(GivenPolicy(was, input))
    requires row.policy == R.Save(policy)
    ensures input.filter.None? ==> row.filter == was.filter
    ensures input.policy.None? ==> Effective(row) == Effective(was)
    ensures input.policy.Some? ==> R.Load(row.policy) == R.Reloaded(R.ApplyRetryDefaults(input.policy.value))
  {
    hide Trim, F.IsStored;
    if input.filter.None? {
      F.StoredTwice(was.filter, was.filter, row.filter);
    }
    if input.policy.None? {
      R.UnsetUpdateKeepsPolicy(R.Load(was.policy));
    }
  }
}
