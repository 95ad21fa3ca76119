/** Event filters of forwarding targets: when a filter accepts a webhook, and how it is stored. */
module EventFilters {
  import opened Text
  import opened Json

  type Filter = map<string, string>
  type Headers = map<string, seq<string>>

  /** What matching takes from Go's libraries: case folding, header-name canonicalisation, and the
      printing of composite values. */
  datatype Library = Library(fold: char -> char, canon: string -> string, render: Json -> string)

  // ---- Matching ----

  function FirstHeaderValue(lib: Library, headers: Headers, key: string): string {
    var name := lib.canon(key);
    if name in headers && headers[name] != [] then Trim(headers[name][0]) else ""
  }

  function ScalarToString(lib: Library, j: Json): string {
    match j
    case JNull => ""
    case JString(s) => Trim(s)
    case JBool(b) => if b then "true" else "false"
    case JNumber(text) => Trim(text)
    case _ => Trim(lib.render(j))
  }

  /** The value a filter key refers to: a header if it has one, else a top-level payload field. */
  function Actual(lib: Library, headers: Headers, payload: Fields, key: string): string {
    var header := FirstHeaderValue(lib, headers, key);
    if header != "" then header
    else if key in payload then ScalarToString(lib, payload[key])
    else ""
  }

  /** Entries with a blank key or value are ignored. */
  predicate Usable(filter: Filter, k: string) {
    k in filter && Trim(k) != "" && Trim(filter[k]) != ""
  }

  predicate Matched(lib: Library, headers: Headers, payload: Fields, key: string, expected: string) {
    var actual := Actual(lib, headers, payload, key);
    actual != "" && EqualFold(lib.fold, actual, expected)
  }

  /** Where the value comes from: the first value of the header under the key's canonical name, if it is not
      blank; otherwise the payload's field of exactly this name, as text. */
  lemma ActualExactly(lib: Library, headers: Headers, payload: Fields, key: string)
    ensures var name := lib.canon(key);
            var actual := Actual(lib, headers, payload, key);
            if name in headers && headers[name] != [] && Trim(headers[name][0]) != ""
            then actual == Trim(headers[name][0])
            else if key !in payload || payload[key] == JNull then actual == ""
            else if payload[key] == JBool(true) then actual == "true"
            else if payload[key] == JBool(false) then actual == "false"
            else if payload[key].JString? then actual == Trim(payload[key].s)
            else if payload[key].JNumber? then actual == Trim(payload[key].text)
            else actual == Trim(lib.render(payload[key]))
  {
  }

  /** A header goes before a payload field of the same name, and one that differs from the filter is not
      made good by the field. */
  lemma HeaderDecides(lib: Library)
    requires lib.canon("k") == "K" && lib.fold('x') != lib.fold('y')
    ensures Accepts(lib, map["k" := "x"], map["K" := ["x"]], map["k" := JString("y")])
    ensures !Accepts(lib, map["k" := "x"], map["K" := ["y"]], map["k" := JString("x")])
    ensures Accepts(lib, map["k" := "x"], map["K" := [" "]], map["k" := JString("x")])
  {
    hide Trim;
    OneLetterTexts();
    var filter: Filter := map["k" := "x"];
    OneEntry(lib, filter, map["K" := ["x"]], map["k" := JString("y")]);
    OneEntry(lib, filter, map["K" := ["y"]], map["k" := JString("x")]);
    OneEntry(lib, filter, map["K" := [" "]], map["k" := JString("x")]);
    assert "x"[0] == 'x' && "y"[0] == 'y';
  }

  lemma OneLetterTexts()
    ensures Trim("k") == "k" && Trim("x") == "x" && Trim("y") == "y" && Trim(" ") == ""
  {
  }

  /** A filter of one usable, trimmed entry accepts what matches the entry. */
  lemma OneEntry(lib: Library, filter: Filter, headers: Headers, payload: Fields)
    requires filter == map["k" := "x"] && Trim("k") == "k" && Trim("x") == "x"
    ensures Accepts(lib, filter, headers, payload) <==> Matched(lib, headers, payload, "k", "x")
  {
    hide Trim, Matched;
    assert Usable(filter, "k");
  }

  /** All usable entries match; no order is involved. */
  predicate Accepts(lib: Library, filter: Filter, headers: Headers, payload: Fields) {
    forall k | k in filter :: Usable(filter, k) ==> Matched(lib, headers, payload, Trim(k), Trim(filter[k]))
  }

  /** Visits the entries in any order and stops at the first that does not match. */
  /** Every entry whose key and value are not blank must find a value that is not blank and is the same
      ignoring case. */
  lemma AcceptsExactly(lib: Library, filter: Filter, headers: Headers, payload: Fields)
    ensures Accepts(lib, filter, headers, payload) <==>
              forall k | k in filter && Trim(k) != "" && Trim(filter[k]) != "" ::
                var actual := Actual(lib, headers, payload, Trim(k));
                actual != "" && EqualFold(lib.fold, actual, Trim(filter[k]))
  {
    hide Trim, Actual;
    if Accepts(lib, filter, headers, payload) {
      forall k | k in filter && Trim(k) != "" && Trim(filter[k]) != ""
        ensures Matched(lib, headers, payload, Trim(k), Trim(filter[k]))
      {
        assert Usable(filter, k);
      }
    }
  }

  method EventFilterMatch(lib: Library, filter: Filter, headers: Headers, payload: Fields) returns (r: bool)
    ensures r == Accepts(lib, filter, headers, payload)
  {
    if |filter| == 0 {
      return true;
    }
    var left := filter.Keys;
    while left != {}
      invariant left <= filter.Keys
      invariant forall k | k in filter && k !in left ::
        Usable(filter, k) ==> Matched(lib, headers, payload, Trim(k), Trim(filter[k]))
    {
      var key :| key in left;
      left := left - {key};
      var expected := Trim(filter[key]);
      if expected == "" {
        continue;
      }
      var referenceKey := Trim(key);
      if referenceKey == "" {
        continue;
      }
      var actual := FirstHeaderValue(lib, headers, referenceKey);
      if actual == "" {
        actual := if referenceKey in payload then ScalarToString(lib, payload[referenceKey]) else "";
      }
      if actual == "" {
        return false;
      }
      if !EqualFold(lib.fold, actual, expected) {
        return false;
      }
    }
    return true;
  }

  // ---- Storing ----

  /** The filter in its stored form: usable entries with key and value trimmed. Entries whose keys
      collide after trimming compete; which one wins is up to the iteration order. */
  ghost predicate IsStored(filter: Filter, stored: Filter) {
    && (forall k | Usable(filter, k) :: Trim(k) in stored)
    && (forall t | t in stored :: exists k :: Usable(filter, k) && Trim(k) == t && stored[t] == Trim(filter[k]))
  }

  /** `eventFilterToJSON` up to the JSON text, which is taken to read back as it was written. */
  method EventFilterToJSON(filter: Filter) returns (values: Filter)
    ensures IsStored(filter, values)
  {
    values := map[];
    var left := filter.Keys;
    while left != {}
      invariant left <= filter.Keys
      invariant forall k | Usable(filter, k) && k !in left :: Trim(k) in values
      invariant forall t | t in values :: exists k :: Usable(filter, k) && Trim(k) == t && values[t] == Trim(filter[k])
    {
      var k :| k in left;
      left := left - {k};
      var key, value := Trim(k), Trim(filter[k]);
      if key == "" || value == "" {
        continue;
      }
      assert Usable(filter, k);
      values := values[key := value];
    }
  }

  /** `eventFilterFromJSON` after the text is decoded: a copy. */
  method EventFilterFromJSON(values: Filter) returns (filter: Filter)
    ensures filter == values
  {
    filter := map[];
    var left := values.Keys;
    while left != {}
      invariant left <= values.Keys
      invariant filter.Keys == values.Keys - left && forall k | k in filter :: filter[k] == values[k]
    {
      var key :| key in left;
      filter := filter[key := values[key]];
      left := left - {key};
    }
  }

  /** Entries that collide after trimming agree on the value, ignoring case. */
  ghost predicate Coherent(lib: Library, filter: Filter) {
    forall a, b | Usable(filter, a) && Usable(filter, b) && Trim(a) == Trim(b) ::
      EqualFold(lib.fold, Trim(filter[a]), Trim(filter[b]))
  }

  ghost predicate SameMeaning(lib: Library, f: Filter, g: Filter) {
    forall headers: Headers, payload: Fields :: Accepts(lib, f, headers, payload) <==> Accepts(lib, g, headers, payload)
  }

  lemma StoredIsUsable(filter: Filter, stored: Filter, t: string)
    requires IsStored(filter, stored) && t in stored
    ensures Usable(stored, t) && Trim(t) == t && Trim(stored[t]) == stored[t]
  {
    var k :| Usable(filter, k) && Trim(k) == t && stored[t] == Trim(filter[k]);
  }

  lemma StoredAcceptsSame(lib: Library, filter: Filter, stored: Filter, headers: Headers, payload: Fields)
    requires IsStored(filter, stored) && Coherent(lib, filter)
    ensures Accepts(lib, filter, headers, payload) <==> Accepts(lib, stored, headers, payload)
  {
    hide Trim, Actual;
    if Accepts(lib, filter, headers, payload) {
      forall t | t in stored ensures Matched(lib, headers, payload, Trim(t), Trim(stored[t])) {
        StoredIsUsable(filter, stored, t);
        var k :| Usable(filter, k) && Trim(k) == t && stored[t] == Trim(filter[k]);
      }
    }
    if Accepts(lib, stored, headers, payload) {
      forall k | Usable(filter, k) ensures Matched(lib, headers, payload, Trim(k), Trim(filter[k])) {
        var t := Trim(k);
        StoredIsUsable(filter, stored, t);
        var w :| Usable(filter, w) && Trim(w) == t && stored[t] == Trim(filter[w]);
        assert EqualFold(lib.fold, Trim(filter[w]), Trim(filter[k]));
      }
    }
  }

  /** The payload that has exactly what a stored filter asks for. */
  function Witness(stored: Filter): Fields {
    map t | t in stored :: JString(stored[t])
  }

  lemma WitnessAccepted(lib: Library, filter: Filter, stored: Filter)
    requires IsStored(filter, stored)
    ensures Accepts(lib, stored, map[], Witness(stored))
  {
    hide Trim, IsStored, Usable;
    forall t | t in stored ensures Matched(lib, map[], Witness(stored), Trim(t), Trim(stored[t])) {
      StoredIsUsable(filter, stored, t);
      UsableValue(stored, t);
    }
  }

  lemma UsableValue(filter: Filter, k: string)
    requires Usable(filter, k)
    ensures Trim(filter[k]) != ""
  {
  }

  /** Storing a filter keeps its meaning, on all headers and payloads, exactly when entries that collide
      after trimming agree; in particular whenever the usable keys stay distinct. */
  lemma StoringKeepsMeaning(lib: Library, filter: Filter, stored: Filter)
    requires IsStored(filter, stored)
    ensures SameMeaning(lib, filter, stored) <==> Coherent(lib, filter)
    ensures (forall a, b | Usable(filter, a) && Usable(filter, b) && Trim(a) == Trim(b) :: a == b) ==>
            Coherent(lib, filter)
  {
    if Coherent(lib, filter) {
      forall headers: Headers, payload: Fields
        ensures Accepts(lib, filter, headers, payload) <==> Accepts(lib, stored, headers, payload)
      {
        StoredAcceptsSame(lib, filter, stored, headers, payload);
      }
    }
    if SameMeaning(lib, filter, stored) {
      WitnessAccepted(lib, filter, stored);
      assert Accepts(lib, filter, map[], Witness(stored));
      forall a, b | Usable(filter, a) && Usable(filter, b) && Trim(a) == Trim(b)
        ensures EqualFold(lib.fold, Trim(filter[a]), Trim(filter[b]))
      {
        WitnessValue(lib, filter, stored, a);
        WitnessValue(lib, filter, stored, b);
      }
    }
  }

  const COLLIDING: Filter := map["k" := "x", " k" := "y"]

  /** The condition is needed: of two entries that collide with different values one is dropped, and the
      stored filter accepts a payload that the original refuses. */
  lemma CollidingEntriesLoosen(lib: Library, stored: Filter)
    requires lib.fold('x') != lib.fold('y') && IsStored(COLLIDING, stored)
    ensures Accepts(lib, stored, map[], Witness(stored)) && !Accepts(lib, COLLIDING, map[], Witness(stored))
  {
    hide Accepts, IsStored;
    WitnessAccepted(lib, COLLIDING, stored);
    if Accepts(lib, COLLIDING, map[], Witness(stored)) {
      CollidingMeansSame(lib, stored);
    }
  }

  lemma CollidingMeansSame(lib: Library, stored: Filter)
    requires IsStored(COLLIDING, stored) && Accepts(lib, COLLIDING, map[], Witness(stored))
    ensures lib.fold('x') == lib.fold('y')
  {
    hide Accepts, Witness;
    assert Trim("k") == "k" == Trim(" k") && Trim("x") == "x" && Trim("y") == "y";
    assert Usable(COLLIDING, "k") && Usable(COLLIDING, " k");
    WitnessValue(lib, COLLIDING, stored, "k");
    WitnessValue(lib, COLLIDING, stored, " k");
    assert "x"[0] == 'x' && "y"[0] == 'y';
  }

  lemma WitnessValue(lib: Library, filter: Filter, stored: Filter, k: string)
    requires IsStored(filter, stored) && Usable(filter, k) && Accepts(lib, filter, map[], Witness(stored))
    ensures EqualFold(lib.fold, stored[Trim(k)], Trim(filter[k]))
  {
    var t := Trim(k);
    StoredIsUsable(filter, stored, t);
    assert Actual(lib, map[], Witness(stored), t) == stored[t];
    assert Matched(lib, map[], Witness(stored), t, Trim(filter[k]));
  }

  /** A stored filter is stored as it is: later save/load trips change nothing. */
  lemma StoredTwice(filter: Filter, stored: Filter, again: Filter)
    requires IsStored(filter, stored) && IsStored(stored, again)
    ensures again == stored
  {
    hide Trim, IsStored, Usable;
    forall t | t in stored ensures t in again && again[t] == stored[t] {
      StoredIsUsable(filter, stored, t);
      StoredHas(stored, again, t);
      var k := StoredFrom(stored, again, t);
      StoredIsUsable(filter, stored, k);
    }
    forall t | t in again ensures t in stored {
      var k := StoredFrom(stored, again, t);
      StoredIsUsable(filter, stored, k);
    }
  }

  lemma StoredHas(filter: Filter, stored: Filter, k: string)
    requires IsStored(filter, stored) && Usable(filter, k)
    ensures Trim(k) in stored
  {
  }

  lemma StoredFrom(filter: Filter, stored: Filter, t: string) returns (k: string)
    requires IsStored(filter, stored) && t in stored
    ensures k in filter && Usable(filter, k) && Trim(k) == t && stored[t] == Trim(filter[k])
  {
    k :| Usable(filter, k) && Trim(k) == t && stored[t] == Trim(filter[k]);
  }

  // ---- Target headers ----

  /** Header maps as `http.Header` builds them: names in canonical form. */
  ghost predicate Canonical(lib: Library, headers: Headers) {
    forall k | k in headers :: lib.canon(k) == k
  }

  /** Names without values are left out of the stored form. */
  function NonEmpty(headers: Headers): Headers {
    map k | k in headers && headers[k] != [] :: headers[k]
  }

  lemma NonEmptyExactly(headers: Headers, name: string)
    ensures name in NonEmpty(headers) <==> name in headers && headers[name] != []
    ensures name in NonEmpty(headers) ==> NonEmpty(headers)[name] == headers[name]
  {
  }

  method HeadersToJSON(headers: Headers) returns (values: Headers)
    ensures values == NonEmpty(headers)
  {
    values := map[];
    var left := headers.Keys;
    while left != {}
      invariant left <= headers.Keys && values.Keys == NonEmpty(headers).Keys - left
      invariant forall k | k in values :: values[k] == headers[k]
    {
      var key :| key in left;
      if |headers[key]| > 0 {
        values := values[key := headers[key]];
      }
      left := left - {key};
    }
  }

  /** A stored value as it decodes: a list of texts, one text, or anything else, which is skipped. */
  datatype StoredValue = Many(values: seq<string>) | One(value: string) | Other

  type StoredHeaders = map<string, StoredValue>

  /** What `HeadersToJSON` writes, as it decodes. */
  function AsStored(values: Headers): StoredHeaders {
    map k | k in values :: Many(values[k])
  }

  function ValuesOf(headers: Headers, name: string): seq<string> {
    if name in headers then headers[name] else []
  }

  /** One stored name read: a list is added to the canonical name's values, one text replaces them. */
  function AddName(headers: Headers, name: string, value: StoredValue): Headers {
    match value
    case Many(values) => if values == [] then headers else headers[name := ValuesOf(headers, name) + values]
    case One(text) => headers[name := [text]]
    case Other => headers
  }

  /** The stored names read in this order. */
  function Added(lib: Library, values: StoredHeaders, order: seq<string>): Headers
    requires forall k | k in order :: k in values
  {
    if order == [] then map[]
    else
      var n := |order| - 1;
      AddName(Added(lib, values, order[..n]), lib.canon(order[n]), values[order[n]])
  }

  /** Every key once. */
  ghost predicate IsOrder(order: seq<string>, keys: set<string>) {
    && (forall k :: k in order <==> k in keys)
    && (forall i, j | 0 <= i < j < |order| :: order[i] != order[j])
  }

  /** `headersFromJSON` after the text is decoded, in some order of the stored names. */
  method HeadersFromJSON(lib: Library, values: StoredHeaders) returns (headers: Headers, ghost order: seq<string>)
    ensures IsOrder(order, values.Keys) && headers == Added(lib, values, order)
    ensures NamesDistinct(lib, values) ==>
              forall k | k in values :: ValuesOf(headers, lib.canon(k)) == Meant(values[k])
  {
    headers, order := map[], [];
    var left := values.Keys;
    while left != {}
      invariant left <= values.Keys && IsOrder(order, values.Keys - left)
      invariant headers == Added(lib, values, order)
    {
      var key :| key in left;
      assert (order + [key])[..|order|] == order;
      order := order + [key];
      match values[key] {
        case Many(list) => headers := AddAll(headers, lib.canon(key), list);
        case One(text) => headers := headers[lib.canon(key) := [text]];
        case Other =>
      }
      left := left - {key};
    }
    if NamesDistinct(lib, values) {
      forall k | k in values ensures ValuesOf(headers, lib.canon(k)) == Meant(values[k]) {
        AddedValues(lib, values, order, lib.canon(k));
      }
    }
  }

  /** The inner loop: `Header.Add` of each value. */
  method AddAll(before: Headers, name: string, list: seq<string>) returns (headers: Headers)
    ensures headers == AddName(before, name, Many(list))
  {
    headers := before;
    for i := 0 to |list|
      invariant headers == AddName(before, name, Many(list[..i]))
    {
      assert list[..i + 1] == list[..i] + [list[i]];
      assert ValuesOf(headers, name) == ValuesOf(before, name) + list[..i];
      assert ValuesOf(before, name) + list[..i + 1] == ValuesOf(headers, name) + [list[i]];
      headers := headers[name := ValuesOf(headers, name) + [list[i]]];
    }
    assert list[..|list|] == list;
  }

  /** The values a stored value stands for. */
  function Meant(value: StoredValue): seq<string> {
    match value
    case Many(values) => values
    case One(text) => [text]
    case Other => []
  }

  /** No two stored names become equal when made canonical. */
  ghost predicate NamesDistinct(lib: Library, values: StoredHeaders) {
    forall a, b | a in values && b in values && lib.canon(a) == lib.canon(b) :: a == b
  }

  lemma AddNameValues(headers: Headers, added: string, value: StoredValue, name: string)
    requires name in headers ==> headers[name] != []
    ensures name != added ==> (name in AddName(headers, added, value) <==> name in headers) &&
                              ValuesOf(AddName(headers, added, value), name) == ValuesOf(headers, name)
    ensures name == added && name !in headers ==> ValuesOf(AddName(headers, added, value), name) == Meant(value)
    ensures name in AddName(headers, added, value) ==> AddName(headers, added, value)[name] != []
  {
  }

  /** Reading is order-free when stored names stay distinct: each canonical name has the values stored for it. */
  lemma {:induction false} AddedValues(lib: Library, values: StoredHeaders, order: seq<string>, name: string)
    requires NamesDistinct(lib, values) && forall k | k in order :: k in values
    requires forall i, j | 0 <= i < j < |order| :: order[i] != order[j]
    ensures forall k | k in order && lib.canon(k) == name ::
              ValuesOf(Added(lib, values, order), name) == Meant(values[k])
    ensures (forall k | k in order :: lib.canon(k) != name) ==> name !in Added(lib, values, order)
    ensures name in Added(lib, values, order) ==> Added(lib, values, order)[name] != []
  {
    hide AddName, ValuesOf, Meant;
    if order == [] {
      NothingRead(lib, values, name);
    } else {
      var n := |order| - 1;
      assert forall k | k in order :: k in order[..n] || k == order[n];
      AddedValues(lib, values, order[..n], name);
      forall k | k in order[..n] ensures k != order[n] {
        var i :| 0 <= i < n && order[i] == k;
      }
      AddNameValues(Added(lib, values, order[..n]), lib.canon(order[n]), values[order[n]], name);
    }
  }

  lemma NothingRead(lib: Library, values: StoredHeaders, name: string)
    ensures name !in Added(lib, values, [])
  {
  }

  /** No name is read without values. */
  lemma {:induction false} AddedNonEmpty(lib: Library, values: StoredHeaders, order: seq<string>)
    requires forall k | k in order :: k in values
    ensures forall name | name in Added(lib, values, order) :: Added(lib, values, order)[name] != []
    ensures NonEmpty(Added(lib, values, order)) == Added(lib, values, order)
  {
    hide AddName;
    if order != [] {
      var n := |order| - 1;
      AddedNonEmpty(lib, values, order[..n]);
      forall name: string
        ensures name in Added(lib, values, order) ==> Added(lib, values, order)[name] != []
      {
        AddNameValues(Added(lib, values, order[..n]), lib.canon(order[n]), values[order[n]], name);
      }
    }
  }

  /** Headers as read back from the stored ones, in some order of the stored names. */
  ghost predicate Reread(lib: Library, stored: Headers, headers: Headers) {
    exists order: seq<string> ::
      IsOrder(order, AsStored(stored).Keys) && headers == Added(lib, AsStored(stored), order)
  }

  /** Names already canonical come back as they were written, less those without values. */
  lemma CanonicalReload(lib: Library, values: Headers, order: seq<string>)
    requires Canonical(lib, values) && IsOrder(order, values.Keys)
    ensures Added(lib, AsStored(values), order) == NonEmpty(values)
  {
    var stored := AsStored(values);
    var read := Added(lib, stored, order);
    forall name: string
      ensures (name in read <==> name in NonEmpty(values)) && (name in read ==> read[name] == NonEmpty(values)[name])
    {
      AddedValues(lib, stored, order, name);
      if name in values {
        assert name in order && lib.canon(name) == name;
        assert ValuesOf(read, name) == values[name];
      }
    }
  }

  /** Headers saved and reloaded, in whatever order the stored names are read, send the same values under
      every name, and saving and reloading them again changes nothing. */
  lemma HeadersSurvive(lib: Library, headers: Headers, order: seq<string>, again: seq<string>, name: string)
    requires Canonical(lib, headers)
    requires IsOrder(order, NonEmpty(headers).Keys)
    ensures var reloaded := Added(lib, AsStored(NonEmpty(headers)), order);
            && ValuesOf(reloaded, name) == ValuesOf(headers, name)
            && (IsOrder(again, NonEmpty(reloaded).Keys) ==> Added(lib, AsStored(NonEmpty(reloaded)), again) == reloaded)
  {
    hide Added;
    CanonicalReload(lib, NonEmpty(headers), order);
    assert NonEmpty(NonEmpty(headers)) == NonEmpty(headers);
    var reloaded := Added(lib, AsStored(NonEmpty(headers)), order);
    if IsOrder(again, NonEmpty(reloaded).Keys) {
      CanonicalReload(lib, NonEmpty(reloaded), again);
    }
  }
}
