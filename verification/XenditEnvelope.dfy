/** Reading a Xendit webhook: the payload may be wrapped in any number of envelopes, which are
    stripped before fields are picked by case-insensitive key. Go visits the keys of an object in an
    arbitrary order; the methods below visit them in any order Dafny may choose. */
module XenditEnvelope {
  import opened Text
  import opened Json
  import opened Ledger
  import EventIds

  /** What the reader takes from elsewhere: case folding, Go's printing of composite values, and the
      provider's status table. */
  datatype Ops = Ops(
    fold: char -> char, render: Json -> string, mapStatus: (string, string) -> Status)

  // ---- Objects by case-insensitive key ----

  /** The keys of an object that a case-insensitive lookup may find. */
  ghost function Hits(fold: char -> char, m: Fields, key: string): set<string> {
    set k | k in m && EqualFold(fold, k, key)
  }

  /** No two keys are equal ignoring case. */
  ghost predicate FoldDistinct(fold: char -> char, m: Fields) {
    forall a, b | a in m && b in m && EqualFold(fold, a, b) :: a == b
  }

  ghost predicate DeepDistinct(fold: char -> char, m: Fields)
    decreases JObject(m)
  {
    FoldDistinct(fold, m) && forall k | k in m && m[k].JObject? :: DeepDistinct(fold, m[k].fields)
  }

  /** What a lookup may find: the value of any hit, and nothing only when there is none. */
  ghost predicate MayFind(fold: char -> char, m: Fields, key: string, r: Option<Json>) {
    match r
    case None => Hits(fold, m, key) == {}
    case Some(j) => exists k | k in Hits(fold, m, key) :: j == m[k]
  }

  /** The value a lookup finds; with several hits, which one is not said. */
  ghost function Lookup(fold: char -> char, m: Fields, key: string): (r: Option<Json>)
    ensures MayFind(fold, m, key, r)
  {
    if Hits(fold, m, key) == {} then None else var k :| k in Hits(fold, m, key); Some(m[k])
  }

  lemma LookupIs(fold: char -> char, m: Fields, key: string, k: string)
    requires FoldDistinct(fold, m) && k in m && EqualFold(fold, k, key)
    ensures Lookup(fold, m, key) == Some(m[k])
  {
    assert k in Hits(fold, m, key);
    forall a | a in Hits(fold, m, key) ensures a == k {
      assert EqualFold(fold, a, k);
    }
  }

  /** One pass over the keys, in any order, stopping at the first hit. */
  method FirstHit(fold: char -> char, m: Fields, key: string) returns (r: Option<Json>)
    ensures MayFind(fold, m, key, r)
    ensures FoldDistinct(fold, m) ==> r == Lookup(fold, m, key)
  {
    var left := m.Keys;
    while left != {}
      invariant left <= m.Keys
      invariant forall k | k in m.Keys - left :: !EqualFold(fold, k, key)
    {
      var k :| k in left;
      if EqualFold(fold, k, key) {
        assert k in Hits(fold, m, key);
        if FoldDistinct(fold, m) {
          LookupIs(fold, m, key, k);
        }
        return Some(m[k]);
      }
      left := left - {k};
    }
    return None;
  }

  ghost function Child(fold: char -> char, m: Fields, key: string): Option<Fields> {
    match Lookup(fold, m, key)
    case None => None
    case Some(j) => AsObject(j)
  }

  /** The child a lookup may give: the object under any hit, and none when some hit is not an object or
      there is no hit. */
  ghost predicate MayChild(fold: char -> char, m: Fields, key: string, child: Option<Fields>) {
    match child
    case Some(inner) => exists k | k in Hits(fold, m, key) :: m[k] == JObject(inner)
    case None => Hits(fold, m, key) == {} || exists k | k in Hits(fold, m, key) :: !m[k].JObject?
  }

  method XenditObjectChild(fold: char -> char, payload: Fields, key: string) returns (child: Option<Fields>)
    ensures MayChild(fold, payload, key, child)
    ensures FoldDistinct(fold, payload) ==> child == Child(fold, payload, key)
  {
    var found := FirstHit(fold, payload, key);
    if found.None? {
      return None;
    }
    child := AsObject(found.value);
  }

  // ---- Stripping envelopes ----

  /** One envelope around `inner`: a field named "value" in any case, or the only field. */
  ghost predicate Envelope(fold: char -> char, outer: Fields, inner: Fields) {
    exists k | k in outer :: outer[k] == JObject(inner) && (EqualFold(fold, k, "value") || |outer| == 1)
  }

  /** Any number of envelopes, none included. */
  ghost predicate Wraps(fold: char -> char, outer: Fields, core: Fields)
    decreases JObject(outer)
  {
    outer == core ||
    exists k | k in outer && outer[k].JObject? ::
      Envelope(fold, outer, outer[k].fields) && Wraps(fold, outer[k].fields, core)
  }

  /** The object is not an envelope. */
  ghost predicate Bare(fold: char -> char, m: Fields) {
    forall inner: Fields :: !Envelope(fold, m, inner)
  }

  /** The reader may take the object for the core: it sees no object under "value", and the object has
      no single field holding an object. */
  ghost predicate MayStop(fold: char -> char, m: Fields) {
    MayChild(fold, m, "value", None) && !(|m| == 1 && exists k | k in m :: m[k].JObject?)
  }

  /** What stripping the envelopes of `m` may give. */
  ghost predicate MayUnwrap(fold: char -> char, m: Fields, core: Fields) {
    Wraps(fold, m, core) && MayStop(fold, core)
  }

  lemma {:induction false} WrapsFurther(fold: char -> char, outer: Fields, m: Fields, k: string)
    requires Wraps(fold, outer, m) && k in m && m[k].JObject? && Envelope(fold, m, m[k].fields)
    ensures Wraps(fold, outer, m[k].fields)
    decreases JObject(outer)
  {
    if outer == m {
      assert Wraps(fold, m[k].fields, m[k].fields);
    } else {
      var h :| h in outer && outer[h].JObject? && Envelope(fold, outer, outer[h].fields) &&
               Wraps(fold, outer[h].fields, m);
      WrapsFurther(fold, outer[h].fields, m, k);
    }
  }

  /** The object inside the next envelope, if there is one. */
  ghost function Inside(fold: char -> char, m: Fields): (r: Option<Fields>)
    ensures r.Some? ==> exists k | k in m :: m[k] == JObject(r.value)
  {
    var child := Child(fold, m, "value");
    if child.Some? then child
    else if |m| == 1 then var k :| k in m; AsObject(m[k])
    else None
  }

  lemma InsideIsEnvelope(fold: char -> char, m: Fields)
    requires FoldDistinct(fold, m)
    ensures Inside(fold, m).Some? ==> Envelope(fold, m, Inside(fold, m).value)
    ensures forall inner | Envelope(fold, m, inner) :: Inside(fold, m) == Some(inner)
  {
    if |m| == 1 {
      OnlyKey(m);
    }
    forall inner | Envelope(fold, m, inner) ensures Inside(fold, m) == Some(inner) {
      var k :| k in m && m[k] == JObject(inner) && (EqualFold(fold, k, "value") || |m| == 1);
      if EqualFold(fold, k, "value") {
        LookupIs(fold, m, "value", k);
      }
    }
  }

  lemma OnlyKey(m: Fields)
    requires |m| == 1
    ensures forall a, b | a in m && b in m :: a == b
  {
    forall a, b | a in m && b in m ensures a == b {
      assert m.Keys == {a} by {
        assert |m.Keys - {a}| == 0;
      }
    }
  }

  /** `part` is the object itself or lies somewhere inside it. */
  ghost predicate Within(part: Fields, whole: Fields)
    decreases JObject(whole)
  {
    part == whole || exists k | k in whole && whole[k].JObject? :: Within(part, whole[k].fields)
  }

  lemma {:induction false} WithinChild(part: Fields, whole: Fields, k: string)
    requires Within(part, whole) && k in part && part[k].JObject?
    ensures Within(part[k].fields, whole)
    decreases JObject(whole)
  {
    if part == whole {
      assert Within(part[k].fields, whole[k].fields);
    } else {
      var h :| h in whole && whole[h].JObject? && Within(part, whole[h].fields);
      WithinChild(part, whole[h].fields, k);
    }
  }

  /** The payload once every envelope is off. */
  ghost function Unwrap(fold: char -> char, m: Fields): Fields
    decreases JObject(m)
  {
    var inside := Inside(fold, m);
    if inside.Some? then
      var k :| k in m && m[k] == JObject(inside.value);
      Unwrap(fold, inside.value)
    else m
  }

  method UnwrapXenditObject(fold: char -> char, payload: Fields) returns (current: Fields)
    ensures Within(current, payload) && MayUnwrap(fold, payload, current)
    ensures DeepDistinct(fold, payload) ==> DeepDistinct(fold, current) && current == Unwrap(fold, payload)
  {
    current := payload;
    while true
      invariant Within(current, payload) && Wraps(fold, payload, current)
      invariant DeepDistinct(fold, payload) ==>
        DeepDistinct(fold, current) && Unwrap(fold, current) == Unwrap(fold, payload)
      decreases JObject(current)
    {
      ghost var outer := current;
      var child := XenditObjectChild(fold, current, "value");
      if child.Some? {
        ghost var k :| k in Hits(fold, outer, "value") && outer[k] == JObject(child.value);
        assert Envelope(fold, outer, outer[k].fields);
        WithinChild(outer, payload, k);
        WrapsFurther(fold, payload, outer, k);
        current := child.value;
        continue;
      }
      if |current| == 1 {
        OnlyKey(current);
        var k :| k in current;
        if current[k].JObject? {
          assert Envelope(fold, outer, outer[k].fields);
          WithinChild(outer, payload, k);
          WrapsFurther(fold, payload, outer, k);
          current := current[k].fields;
          continue;
        }
      }
      return;
    }
  }

  /** Stripping is what "any number of envelopes" says, and nothing else: the result is the one bare
      object the payload wraps. */
  lemma {:induction false} UnwrapIsBare(fold: char -> char, m: Fields, core: Fields)
    requires DeepDistinct(fold, m)
    ensures core == Unwrap(fold, m) <==> Wraps(fold, m, core) && Bare(fold, core)
    decreases JObject(m)
  {
    InsideIsEnvelope(fold, m);
    if Inside(fold, m).Some? {
      var inner := Inside(fold, m).value;
      var k :| k in m && m[k] == JObject(inner);
      UnwrapIsBare(fold, inner, core);
      if Wraps(fold, inner, core) {
        assert Wraps(fold, m, core);
      }
      if core == m {
        assert Envelope(fold, core, inner);
      }
    }
  }

  /** Stripping an object that wraps `p` gives what stripping `p` gives. */
  lemma {:induction false} UnwrapSame(fold: char -> char, w: Fields, p: Fields)
    requires DeepDistinct(fold, w) && Wraps(fold, w, p)
    ensures Unwrap(fold, w) == Unwrap(fold, p) && DeepDistinct(fold, p)
    decreases JObject(w)
  {
    if w != p {
      var k :| k in w && w[k].JObject? && Envelope(fold, w, w[k].fields) && Wraps(fold, w[k].fields, p);
      InsideIsEnvelope(fold, w);
      UnwrapSame(fold, w[k].fields, p);
    }
  }

  lemma {:induction false} WrapsTransitive(fold: char -> char, a: Fields, b: Fields, c: Fields)
    requires Wraps(fold, a, b) && Wraps(fold, b, c)
    ensures Wraps(fold, a, c)
    decreases JObject(a)
  {
    if a != b {
      var k :| k in a && a[k].JObject? && Envelope(fold, a, a[k].fields) && Wraps(fold, a[k].fields, b);
      WrapsTransitive(fold, a[k].fields, b, c);
    }
  }

  lemma {:induction false} WrappedIsSmaller(fold: char -> char, outer: Fields, core: Fields)
    requires Wraps(fold, outer, core)
    ensures core == outer || JObject(core) < JObject(outer)
    decreases JObject(outer)
  {
    if core != outer {
      var k :| k in outer && outer[k].JObject? && Envelope(fold, outer, outer[k].fields) &&
               Wraps(fold, outer[k].fields, core);
      WrappedIsSmaller(fold, outer[k].fields, core);
      assert outer[k] < JObject(outer);
    }
  }

  lemma BareMayStop(fold: char -> char, m: Fields)
    ensures Bare(fold, m) ==> MayStop(fold, m)
    ensures FoldDistinct(fold, m) && MayStop(fold, m) ==> Bare(fold, m)
  {
    if Bare(fold, m) {
      forall k | k in m && m[k].JObject? ensures !EqualFold(fold, k, "value") && |m| != 1 {
        assert !Envelope(fold, m, m[k].fields);
      }
    }
    if FoldDistinct(fold, m) && MayStop(fold, m) {
      forall inner: Fields ensures !Envelope(fold, m, inner) {
        if Envelope(fold, m, inner) {
          var k :| k in m && m[k] == JObject(inner) && (EqualFold(fold, k, "value") || |m| == 1);
          assert EqualFold(fold, k, "value") ==> k in Hits(fold, m, "value");
          forall h | h in Hits(fold, m, "value") ensures Lookup(fold, m, "value") == Some(m[h]) {
            LookupIs(fold, m, "value", h);
          }
        }
      }
    }
  }

  /** Stripping is what "any number of envelopes" says. Every bare object the payload wraps is a possible
      result; when keys are distinct ignoring case it is the only one, and the specified one. */
  lemma UnwrapIsTheCore(fold: char -> char, m: Fields, core: Fields)
    ensures Wraps(fold, m, core) && Bare(fold, core) ==> MayUnwrap(fold, m, core)
    ensures DeepDistinct(fold, m) ==>
              (core == Unwrap(fold, m) <==> Wraps(fold, m, core) && Bare(fold, core)) &&
              (core == Unwrap(fold, m) <==> MayUnwrap(fold, m, core))
  {
    BareMayStop(fold, core);
    if DeepDistinct(fold, m) {
      UnwrapIsBare(fold, m, core);
      if Wraps(fold, m, core) {
        UnwrapSame(fold, m, core);
      }
    }
  }

  /** Whatever stripping `p` may give, stripping an object that wraps `p` may give; and when keys are
      distinct ignoring case both give the same. */
  lemma UnwrapThroughEnvelopes(fold: char -> char, w: Fields, p: Fields, core: Fields)
    requires Wraps(fold, w, p)
    ensures MayUnwrap(fold, p, core) ==> MayUnwrap(fold, w, core)
    ensures DeepDistinct(fold, w) ==> Unwrap(fold, w) == Unwrap(fold, p) && DeepDistinct(fold, p)
  {
    if MayUnwrap(fold, p, core) {
      WrapsTransitive(fold, w, p, core);
    }
    if DeepDistinct(fold, w) {
      UnwrapSame(fold, w, p);
    }
  }

  lemma BareStays(fold: char -> char, core: Fields, c: Fields)
    requires Bare(fold, core) && Wraps(fold, core, c)
    ensures c == core
  {
  }

  lemma FurtherUnwrap(fold: char -> char, core: Fields, inner: Fields) returns (c: Fields)
    requires Envelope(fold, core, inner)
    ensures MayUnwrap(fold, core, c) && c != core
  {
    var k :| k in core && core[k] == JObject(inner) && (EqualFold(fold, k, "value") || |core| == 1);
    c := Unwrap(fold, inner);
    UnwrapIsPossible(fold, inner);
    assert core[k].fields == inner && Envelope(fold, core, core[k].fields);
    assert Wraps(fold, core, c);
    WrappedIsSmaller(fold, inner, c);
    assert core[k] < JObject(core);
  }

  /** Stripping twice, exactly. A result may always be left as it is, and it is the only result of stripping
      it again if and only if it is bare; with keys distinct ignoring case it always is. */
  lemma UnwrapIdempotent(fold: char -> char, m: Fields, core: Fields)
    requires MayUnwrap(fold, m, core)
    ensures MayUnwrap(fold, core, core)
    ensures (forall c :: MayUnwrap(fold, core, c) ==> c == core) <==> Bare(fold, core)
    ensures DeepDistinct(fold, m) ==> Bare(fold, core) && Unwrap(fold, core) == core
  {
    if Bare(fold, core) {
      forall c | MayUnwrap(fold, core, c) ensures c == core {
        BareStays(fold, core, c);
      }
    } else {
      var inner :| Envelope(fold, core, inner);
      var c := FurtherUnwrap(fold, core, inner);
    }
    if DeepDistinct(fold, m) {
      UnwrapIsTheCore(fold, m, core);
      UnwrapIsTheCore(fold, core, core);
      UnwrapSame(fold, m, core);
    }
  }

  const TWO_VALUES: Fields := map["value" := JNull, "Value" := JObject(map["a" := JNull])]

  /** The condition on keys is needed: with two keys equal ignoring case the reader may stop at the outer
      object or go inside, as the order of keys has it. */
  lemma UnwrapMayVary(fold: char -> char)
    requires fold('V') == fold('v')
    ensures MayUnwrap(fold, TWO_VALUES, TWO_VALUES) && MayUnwrap(fold, TWO_VALUES, map["a" := JNull])
  {
    var inner: Fields := map["a" := JNull];
    assert EqualFold(fold, "value", "value") && EqualFold(fold, "Value", "value");
    assert "value" in Hits(fold, TWO_VALUES, "value") && !TWO_VALUES["value"].JObject?;
    assert TWO_VALUES.Keys == {"value", "Value"} && "value" != "Value";
    assert Envelope(fold, TWO_VALUES, TWO_VALUES["Value"].fields);
    assert Wraps(fold, inner, inner) && Wraps(fold, TWO_VALUES, inner);
    NoObjects(fold, inner);
  }

  lemma NoObjects(fold: char -> char, m: Fields)
    requires forall k | k in m :: !m[k].JObject?
    ensures MayStop(fold, m)
  {
    if Hits(fold, m, "value") != {} {
      var k :| k in Hits(fold, m, "value");
    }
  }

  // ---- Picking fields ----

  /** The text a field is read as. */
  function Normalized(ops: Ops, j: Json): string {
    match j
    case JString(s) => Trim(s)
    case JNumber(text) => Trim(text)
    case JNull => ""
    case _ => Trim(ops.render(j))
  }

  /** The first listed key that is present decides, even when its value is blank. */
  ghost function Pick(ops: Ops, m: Fields, keys: seq<string>): string {
    if keys == [] then ""
    else
      match Lookup(ops.fold, m, keys[0])
      case Some(j) => Normalized(ops, j)
      case None => Pick(ops, m, keys[1..])
  }

  /** What picking may give: the text of any hit of the first listed key that has one, else nothing. */
  ghost predicate MayPick(ops: Ops, m: Fields, keys: seq<string>, text: string) {
    if keys == [] then text == ""
    else if Hits(ops.fold, m, keys[0]) == {} then MayPick(ops, m, keys[1..], text)
    else exists k | k in Hits(ops.fold, m, keys[0]) :: text == Normalized(ops, m[k])
  }

  /** `Pick` is one of the possible texts, and the only one when keys are distinct ignoring case. */
  lemma {:induction false} PickIsPossible(ops: Ops, m: Fields, keys: seq<string>, text: string)
    ensures MayPick(ops, m, keys, Pick(ops, m, keys))
    ensures FoldDistinct(ops.fold, m) && MayPick(ops, m, keys, text) ==> text == Pick(ops, m, keys)
  {
    if keys != [] {
      var hits := Hits(ops.fold, m, keys[0]);
      if hits == {} {
        PickIsPossible(ops, m, keys[1..], text);
      } else if FoldDistinct(ops.fold, m) {
        forall k | k in hits ensures Lookup(ops.fold, m, keys[0]) == Some(m[k]) {
          LookupIs(ops.fold, m, keys[0], k);
        }
      }
    }
  }

  method XenditStringFromObject(ops: Ops, m: Fields, keys: seq<string>) returns (text: string)
    ensures MayPick(ops, m, keys, text)
    ensures FoldDistinct(ops.fold, m) ==> text == Pick(ops, m, keys)
  {
    for i := 0 to |keys|
      invariant forall t | MayPick(ops, m, keys[i..], t) :: MayPick(ops, m, keys, t)
      invariant FoldDistinct(ops.fold, m) ==> Pick(ops, m, keys) == Pick(ops, m, keys[i..])
    {
      var found := FirstHit(ops.fold, m, keys[i]);
      assert keys[i..][1..] == keys[i + 1..];
      if found.Some? {
        return Normalized(ops, found.value);
      }
    }
    return "";
  }

  function FirstNonEmpty(values: seq<string>): (r: string)
    ensures Trimmed(r)
    ensures r == "" <==> forall i | 0 <= i < |values| :: Trim(values[i]) == ""
    ensures r != "" ==> exists i | 0 <= i < |values| ::
                          r == Trim(values[i]) && forall j | 0 <= j < i :: Trim(values[j]) == ""
  {
    if values == [] then ""
    else if Trim(values[0]) != "" then Trim(values[0])
    else FirstNonEmpty(values[1..])
  }

  // ---- The webhook event ----

  const TYPE_KEYS := ["event", "type"]
  const STATUS_KEYS := ["status"]
  const REFERENCE_KEYS := ["reference_id", "external_id", "order_id", "payment_request_id", "invoice_id"]
  const REFUND_ID_KEYS := ["refund_id", "id", "payment_request_id", "payment_id", "invoice_id"]
  const EVENT_ID_KEYS :=
    ["payment_id", "capture_id", "refund_id", "payment_request_id", "payment_token_id", "invoice_id", "id"]

  function ObjectIdKeys(eventType: string): seq<string> {
    if IsRefundEvent(eventType) then REFUND_ID_KEYS else EVENT_ID_KEYS
  }

  /** The stripped "data" object, empty when there is none. */
  ghost function Data(fold: char -> char, payload: Fields): Fields {
    match Child(fold, payload, "data")
    case None => map[]
    case Some(d) => Unwrap(fold, d)
  }

  /** A field is looked for in the data object first, then in the payload. */
  ghost function PickEither(ops: Ops, data: Fields, payload: Fields, keys: seq<string>): string {
    FirstNonEmpty([Pick(ops, data, keys), Pick(ops, payload, keys)])
  }

  function OrNotification(eventType: string): string {
    if eventType == "" then "notification" else eventType
  }

  ghost function EventTypeOf(ops: Ops, data: Fields, payload: Fields): string {
    OrNotification(FirstNonEmpty([
      Pick(ops, payload, TYPE_KEYS), Pick(ops, data, TYPE_KEYS),
      Pick(ops, payload, STATUS_KEYS), Pick(ops, data, STATUS_KEYS)]))
  }

  /** The provider's own id of the object the event is about. */
  ghost function ObjectIdOf(ops: Ops, data: Fields, payload: Fields): string {
    PickEither(ops, data, payload, ObjectIdKeys(EventTypeOf(ops, data, payload)))
  }

  /** The event made of the picked texts. */
  function Assembled(ops: Ops, eventType: string, status: string, objectId: string, found: string): ParsedEvent {
    var reference := if found == "" then objectId else found;
    var id := if objectId != "" then EventIds.EventId([eventType, objectId])
              else if reference != "" then EventIds.EventId([eventType, reference])
              else "";
    ParsedEvent(Trim(id), eventType, Trim(reference), ops.mapStatus(eventType, status))
  }

  ghost function ParsedFrom(ops: Ops, data: Fields, payload: Fields): ParsedEvent {
    var eventType := EventTypeOf(ops, data, payload);
    var status := FirstNonEmpty([Pick(ops, data, STATUS_KEYS), Pick(ops, payload, STATUS_KEYS), eventType]);
    Assembled(ops, eventType, status, ObjectIdOf(ops, data, payload), PickEither(ops, data, payload, REFERENCE_KEYS))
  }

  ghost function Parsed(ops: Ops, body: Fields): ParsedEvent {
    var payload := Unwrap(ops.fold, body);
    ParsedFrom(ops, Data(ops.fold, payload), payload)
  }

  // ---- What the reader may make of a body, whatever order the keys are visited in ----

  ghost predicate MayEither(ops: Ops, data: Fields, payload: Fields, keys: seq<string>, text: string) {
    exists a, b :: MayPick(ops, data, keys, a) && MayPick(ops, payload, keys, b) && text == FirstNonEmpty([a, b])
  }

  ghost predicate MayEventType(ops: Ops, data: Fields, payload: Fields, eventType: string) {
    exists a, b, c, d ::
      MayPick(ops, payload, TYPE_KEYS, a) && MayPick(ops, data, TYPE_KEYS, b) &&
      MayPick(ops, payload, STATUS_KEYS, c) && MayPick(ops, data, STATUS_KEYS, d) &&
      eventType == OrNotification(FirstNonEmpty([a, b, c, d]))
  }

  ghost predicate MayStatus(ops: Ops, data: Fields, payload: Fields, eventType: string, status: string) {
    exists a, b :: MayPick(ops, data, STATUS_KEYS, a) && MayPick(ops, payload, STATUS_KEYS, b) &&
                   status == FirstNonEmpty([a, b, eventType])
  }

  /** The event picked from a data object and a payload, about the object with this id. */
  ghost predicate MayEvent(ops: Ops, data: Fields, payload: Fields, event: ParsedEvent, objectId: string) {
    && MayEventType(ops, data, payload, event.eventType)
    && MayEither(ops, data, payload, ObjectIdKeys(event.eventType), objectId)
    && exists status, found ::
         MayStatus(ops, data, payload, event.eventType, status) &&
         MayEither(ops, data, payload, REFERENCE_KEYS, found) &&
         event == Assembled(ops, event.eventType, status, objectId, found)
  }

  ghost predicate MayData(fold: char -> char, payload: Fields, data: Fields) {
    (MayChild(fold, payload, "data", None) && data == map[]) ||
    exists child :: MayChild(fold, payload, "data", Some(child)) && MayUnwrap(fold, child, data)
  }

  ghost predicate MayParse(ops: Ops, body: Fields, event: ParsedEvent, objectId: string) {
    exists payload, data ::
      MayUnwrap(ops.fold, body, payload) && MayData(ops.fold, payload, data) &&
      MayEvent(ops, data, payload, event, objectId)
  }

  lemma ChildDistinct(fold: char -> char, m: Fields, key: string)
    requires DeepDistinct(fold, m)
    ensures Child(fold, m, key).Some? ==> DeepDistinct(fold, Child(fold, m, key).value)
  {
  }

  /** When keys are distinct ignoring case the order does not matter: only the specified event is possible. */
  lemma DistinctEvent(ops: Ops, data: Fields, payload: Fields, event: ParsedEvent, objectId: string)
    requires FoldDistinct(ops.fold, data) && FoldDistinct(ops.fold, payload)
    requires MayEvent(ops, data, payload, event, objectId)
    ensures event == ParsedFrom(ops, data, payload) && objectId == ObjectIdOf(ops, data, payload)
  {
    hide MayPick, Pick, FoldDistinct, Assembled, FirstNonEmpty, Trim, IsRefundEvent;
    forall m, keys, t | (m == data || m == payload) && MayPick(ops, m, keys, t) ensures t == Pick(ops, m, keys) {
      PickIsPossible(ops, m, keys, t);
    }
  }

  method ParseWebhook(ops: Ops, body: Fields) returns (event: ParsedEvent, ghost objectId: string)
    ensures MayParse(ops, body, event, objectId)
    ensures DeepDistinct(ops.fold, body) ==> event == Parsed(ops, body)
  {
    hide MayEvent, MayUnwrap, Trim, Assembled;
    var payload := UnwrapXenditObject(ops.fold, body);
    if DeepDistinct(ops.fold, body) {
      ChildDistinct(ops.fold, payload, "data");
    }
    var data := map[];
    var child := XenditObjectChild(ops.fold, payload, "data");
    if child.Some? {
      data := UnwrapXenditObject(ops.fold, child.value);
    }
    event, objectId := EventFrom(ops, data, payload);
  }

  method EitherString(ops: Ops, data: Fields, payload: Fields, keys: seq<string>) returns (text: string)
    ensures MayEither(ops, data, payload, keys, text)
  {
    var fromData := XenditStringFromObject(ops, data, keys);
    var fromPayload := XenditStringFromObject(ops, payload, keys);
    text := FirstNonEmpty([fromData, fromPayload]);
  }

  method EventTypeFrom(ops: Ops, data: Fields, payload: Fields) returns (eventType: string)
    ensures MayEventType(ops, data, payload, eventType)
  {
    hide MayPick, FirstNonEmpty;
    var t1 := XenditStringFromObject(ops, payload, TYPE_KEYS);
    var t2 := XenditStringFromObject(ops, data, TYPE_KEYS);
    var s1 := XenditStringFromObject(ops, payload, STATUS_KEYS);
    var s2 := XenditStringFromObject(ops, data, STATUS_KEYS);
    eventType := FirstNonEmpty([t1, t2, s1, s2]);
    if eventType == "" {
      eventType := "notification";
    }
  }

  /** The field-picking part of `ParseWebhook`. */
  method EventFrom(ops: Ops, data: Fields, payload: Fields) returns (event: ParsedEvent, ghost objectId: string)
    ensures MayEvent(ops, data, payload, event, objectId)
    ensures FoldDistinct(ops.fold, data) && FoldDistinct(ops.fold, payload) ==>
              event == ParsedFrom(ops, data, payload)
  {
    hide MayPick, Pick, FoldDistinct, FirstNonEmpty, MayEither, MayEventType, Trim, IsRefundEvent;
    var eventType := EventTypeFrom(ops, data, payload);
    var s1 := XenditStringFromObject(ops, data, STATUS_KEYS);
    var s2 := XenditStringFromObject(ops, payload, STATUS_KEYS);
    var status := FirstNonEmpty([s1, s2, eventType]);
    assert MayStatus(ops, data, payload, eventType, status);
    var about := EitherString(ops, data, payload, ObjectIdKeys(eventType));
    objectId := about;
    var found := EitherString(ops, data, payload, REFERENCE_KEYS);
    var reference := found;
    if reference == "" {
      reference := about;
    }
    var id := "";
    if about != "" {
      id := EventIds.BuildWebhookEventID([eventType, about]);
    } else if reference != "" {
      id := EventIds.BuildWebhookEventID([eventType, reference]);
    }
    event := ParsedEvent(Trim(id), eventType, Trim(reference), ops.mapStatus(eventType, status));
    assert event == Assembled(ops, eventType, status, about, found);
    if FoldDistinct(ops.fold, data) && FoldDistinct(ops.fold, payload) {
      DistinctEvent(ops, data, payload, event, about);
    }
  }

  lemma {:induction false} UnwrapIsPossible(fold: char -> char, m: Fields)
    ensures MayUnwrap(fold, m, Unwrap(fold, m))
    decreases JObject(m)
  {
    var inside := Inside(fold, m);
    if inside.Some? {
      var k :| k in m && m[k] == JObject(inside.value) && Envelope(fold, m, m[k].fields);
      UnwrapIsPossible(fold, inside.value);
    } else if |m| == 1 {
      OnlyKey(m);
    }
  }

  lemma DistinctUnwrap(fold: char -> char, m: Fields, core: Fields)
    requires DeepDistinct(fold, m) && MayUnwrap(fold, m, core)
    ensures core == Unwrap(fold, m) && DeepDistinct(fold, core)
  {
    UnwrapSame(fold, m, core);
    InsideIsEnvelope(fold, core);
    if Inside(fold, core).Some? {
      var k :| k in core && core[k] == JObject(Inside(fold, core).value);
      forall h | h in Hits(fold, core, "value") ensures Lookup(fold, core, "value") == Some(core[h]) {
        LookupIs(fold, core, "value", h);
      }
    }
  }

  lemma DistinctData(fold: char -> char, payload: Fields, data: Fields)
    requires DeepDistinct(fold, payload) && MayData(fold, payload, data)
    ensures data == Data(fold, payload) && FoldDistinct(fold, data)
  {
    hide Unwrap, MayUnwrap;
    forall h | h in Hits(fold, payload, "data") ensures Lookup(fold, payload, "data") == Some(payload[h]) {
      LookupIs(fold, payload, "data", h);
    }
    if data != map[] || Child(fold, payload, "data").Some? {
      var child :| MayChild(fold, payload, "data", Some(child)) && MayUnwrap(fold, child, data);
      DistinctUnwrap(fold, child, data);
    }
  }

  lemma DataIsPossible(fold: char -> char, payload: Fields)
    ensures MayData(fold, payload, Data(fold, payload))
  {
    hide MayUnwrap;
    var child := Child(fold, payload, "data");
    if child.Some? {
      UnwrapIsPossible(fold, child.value);
      assert MayChild(fold, payload, "data", Some(child.value));
    }
  }

  lemma EventIsPossible(ops: Ops, data: Fields, payload: Fields)
    ensures MayEvent(ops, data, payload, ParsedFrom(ops, data, payload), ObjectIdOf(ops, data, payload))
  {
    hide MayPick, Pick, Assembled, FirstNonEmpty, Trim, IsRefundEvent;
    forall m, keys ensures MayPick(ops, m, keys, Pick(ops, m, keys)) {
      PickIsPossible(ops, m, keys, "");
    }
    var eventType := EventTypeOf(ops, data, payload);
    assert MayEither(ops, data, payload, ObjectIdKeys(eventType), ObjectIdOf(ops, data, payload));
    assert MayEither(ops, data, payload, REFERENCE_KEYS, PickEither(ops, data, payload, REFERENCE_KEYS));
    var status := FirstNonEmpty([Pick(ops, data, STATUS_KEYS), Pick(ops, payload, STATUS_KEYS), eventType]);
    assert MayStatus(ops, data, payload, eventType, status);
    AssembledType(ops, eventType, status, ObjectIdOf(ops, data, payload),
                  PickEither(ops, data, payload, REFERENCE_KEYS));
  }

  lemma AssembledType(ops: Ops, eventType: string, status: string, objectId: string, found: string)
    ensures Assembled(ops, eventType, status, objectId, found).eventType == eventType
  {
  }

  /** Every body parses to `Parsed` in some order of the keys, and to nothing else in any order when keys
      are distinct ignoring case. */
  lemma ParsesExactly(ops: Ops, body: Fields, event: ParsedEvent)
    ensures exists objectId :: MayParse(ops, body, Parsed(ops, body), objectId)
    ensures DeepDistinct(ops.fold, body) ==>
              ((exists objectId :: MayParse(ops, body, event, objectId)) <==> event == Parsed(ops, body))
  {
    hide MayUnwrap, Unwrap, MayData, Data, MayEvent, ParsedFrom, ObjectIdOf;
    var payload := Unwrap(ops.fold, body);
    UnwrapIsPossible(ops.fold, body);
    DataIsPossible(ops.fold, payload);
    EventIsPossible(ops, Data(ops.fold, payload), payload);
    assert MayParse(ops, body, Parsed(ops, body), ObjectIdOf(ops, Data(ops.fold, payload), payload));
    if DeepDistinct(ops.fold, body) && exists objectId :: MayParse(ops, body, event, objectId) {
      var objectId :| MayParse(ops, body, event, objectId);
      var core, data :| MayUnwrap(ops.fold, body, core) && MayData(ops.fold, core, data) &&
                        MayEvent(ops, data, core, event, objectId);
      DistinctUnwrap(ops.fold, body, core);
      DistinctData(ops.fold, core, data);
      DistinctEvent(ops, data, core, event, objectId);
    }
  }

  /** Envelopes change nothing: whatever a payload can parse to, it can parse to inside any number of
      envelopes; and when keys are distinct ignoring case it parses to the same event type, reference, id
      and status. */
  lemma ParseThroughEnvelopes(ops: Ops, w: Fields, p: Fields, event: ParsedEvent, objectId: string)
    requires Wraps(ops.fold, w, p)
    ensures MayParse(ops, p, event, objectId) ==> MayParse(ops, w, event, objectId)
    ensures DeepDistinct(ops.fold, w) ==> Parsed(ops, w) == Parsed(ops, p)
  {
    hide MayUnwrap, MayData, MayEvent;
    if MayParse(ops, p, event, objectId) {
      var payload, data :| MayUnwrap(ops.fold, p, payload) && MayData(ops.fold, payload, data) &&
                           MayEvent(ops, data, payload, event, objectId);
      UnwrapThroughEnvelopes(ops.fold, w, p, payload);
    }
    UnwrapThroughEnvelopes(ops.fold, w, p, p);
  }

  lemma AssembledId(ops: Ops, eventType: string, status: string, objectId: string, found: string)
    ensures var e := Assembled(ops, eventType, status, objectId, found);
            && Trimmed(e.eventId) && Trimmed(e.paymentRef) && e.eventType == eventType
            && (objectId != "" ==> e.eventId == EventIds.EventId([eventType, objectId]))
  {
    hide EventIds.EventId;
    EventIds.EventIdTrimStable([eventType, objectId]);
  }

  lemma PickedTexts(ops: Ops, data: Fields, payload: Fields, eventType: string, keys: seq<string>, text: string)
    ensures MayEventType(ops, data, payload, eventType) ==> eventType != "" && Trimmed(eventType)
    ensures MayEither(ops, data, payload, keys, text) ==> Trimmed(text)
  {
    hide MayPick;
    assert Trimmed("notification");
  }

  /** The id and reference are trimmed, the type is never empty, and an event about an object has the id
      printed from type and object id. */
  lemma ParsedId(ops: Ops, data: Fields, payload: Fields, e: ParsedEvent, objectId: string)
    requires MayEvent(ops, data, payload, e, objectId)
    ensures Trimmed(e.eventId) && Trimmed(e.paymentRef)
    ensures e.eventType != "" && Trimmed(e.eventType) && Trimmed(objectId)
    ensures objectId != "" ==> e.eventId == EventIds.EventId([e.eventType, objectId])
  {
    hide MayPick, MayEither, MayEventType, MayStatus, Assembled, EventIds.EventId, ObjectIdKeys, IsRefundEvent, Trimmed;
    PickedTexts(ops, data, payload, e.eventType, ObjectIdKeys(e.eventType), objectId);
    var status, found :|
      MayStatus(ops, data, payload, e.eventType, status) && MayEither(ops, data, payload, REFERENCE_KEYS, found) &&
      e == Assembled(ops, e.eventType, status, objectId, found);
    AssembledId(ops, e.eventType, status, objectId, found);
  }

  lemma ParsedTypeSet(ops: Ops, body: Fields, e: ParsedEvent, objectId: string)
    requires MayParse(ops, body, e, objectId)
    ensures e.eventType != ""
  {
  }

  /** The parsed id is one the duplicate lookup can find again: trimming leaves it alone. When the
      event names an object, that object's id is among the identifiers a refund is matched by if and
      only if the event type has no colon or the reference is that id. */
  lemma ParsedRefundIdentifiers(ops: Ops, body: Fields, e: ParsedEvent, objectId: string)
    requires MayParse(ops, body, e, objectId)
    ensures Trim(e.eventId) == e.eventId
    ensures objectId != "" ==>
              (objectId in EventIds.Identifiers(e.paymentRef, e.eventId) <==>
               ':' !in e.eventType || e.paymentRef == objectId)
  {
    hide MayEvent, MayUnwrap, MayData, EventIds.Identifiers, EventIds.EventId;
    var payload, data :| MayUnwrap(ops.fold, body, payload) && MayData(ops.fold, payload, data) &&
                         MayEvent(ops, data, payload, e, objectId);
    ParsedId(ops, data, payload, e, objectId);
    if objectId != "" {
      EventIds.RefundIdRoundTrip(e.paymentRef, e.eventType, objectId);
    }
  }
}
