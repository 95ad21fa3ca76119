/** Which fields of a Xendit webhook say what, with the keys written out. */
module XenditKeys {
  import opened Text
  import opened Json
  import opened Ledger
  import opened XenditEnvelope
  import EventIds

  // ---- Refund events ----

  /** Refund events start with "refund." or end with ".refund", in any case. */
  lemma RefundEvents(eventType: string)
    ensures IsRefundEvent(eventType) <==>
              exists rest :: Lower(Trim(eventType)) == "refund." + rest || Lower(Trim(eventType)) == rest + ".refund"
  {
    var t := Lower(Trim(eventType));
    if HasPrefix(t, "refund.") {
      assert t == "refund." + t[7..];
    }
    if HasSuffix(t, ".refund") {
      assert t == t[..|t| - 7] + ".refund";
    }
  }

  lemma RefundEventExamples()
    ensures IsRefundEvent("refund.succeeded") && IsRefundEvent("direct_debit.refund") && IsRefundEvent(" Refund.X")
    ensures !IsRefundEvent("payment.capture") && !IsRefundEvent("refund")
  {
    hide Trim;
    ExampleTexts();
    assert Lower("refund.succeeded")[..7] == "refund." && Lower("Refund.X")[..7] == "refund.";
    assert Lower("direct_debit.refund")[12..] == ".refund";
    assert Lower("payment.capture")[0] == 'p' && Lower("payment.capture")[14] == 'e';
    assert Lower("payment.capture")[8..][6] == 'e' && ".refund"[6] == 'd' && "refund."[0] == 'r';
    assert |Lower("refund")| == 6;
  }

  lemma ExampleTexts()
    ensures Trim("refund.succeeded") == "refund.succeeded" && Trim("direct_debit.refund") == "direct_debit.refund"
    ensures Trim(" Refund.X") == "Refund.X" && Trim("payment.capture") == "payment.capture"
    ensures Trim("refund") == "refund"
  {
    assert " Refund.X"[1..] == "Refund.X";
  }

  // ---- Fields ----

  /** The object has the key, in some case, and only ever with this text, which has no white space at its ends. */
  ghost predicate Holds(ops: Ops, m: Fields, key: string, text: string) {
    && Trimmed(text) && Hits(ops.fold, m, key) != {}
    && forall k | k in Hits(ops.fold, m, key) :: m[k] == JString(text)
  }

  ghost predicate Lacks(ops: Ops, m: Fields, key: string) {
    Hits(ops.fold, m, key) == {}
  }

  /** Picking gives the text of the first listed key that the object has. */
  lemma {:induction false} PickFirst(ops: Ops, m: Fields, keys: seq<string>, i: nat, text: string, picked: string)
    requires i < |keys| && Holds(ops, m, keys[i], text) && forall j | 0 <= j < i :: Lacks(ops, m, keys[j])
    requires MayPick(ops, m, keys, picked)
    ensures picked == text
  {
    if i > 0 {
      assert Lacks(ops, m, keys[0]);
      forall j | 0 <= j < i - 1 ensures Lacks(ops, m, keys[1..][j]) {
        assert keys[1..][j] == keys[j + 1];
      }
      PickFirst(ops, m, keys[1..], i - 1, text, picked);
    } else {
      assert Normalized(ops, JString(text)) == text;
    }
  }

  lemma {:induction false} PickNothing(ops: Ops, m: Fields, keys: seq<string>, picked: string)
    requires forall j | 0 <= j < |keys| :: Lacks(ops, m, keys[j])
    requires MayPick(ops, m, keys, picked)
    ensures picked == ""
  {
    if keys != [] {
      assert Lacks(ops, m, keys[0]);
      forall j | 0 <= j < |keys| - 1 ensures Lacks(ops, m, keys[1..][j]) {
        assert keys[1..][j] == keys[j + 1];
      }
      PickNothing(ops, m, keys[1..], picked);
    }
  }

  lemma {:induction false} PickTrimmed(ops: Ops, m: Fields, keys: seq<string>, picked: string)
    requires MayPick(ops, m, keys, picked)
    ensures Trimmed(picked)
  {
    if keys != [] && Hits(ops.fold, m, keys[0]) == {} {
      PickTrimmed(ops, m, keys[1..], picked);
    }
  }

  /** How values read: texts and numbers trimmed, null as nothing, anything else as Go prints it, trimmed. */
  lemma ValuesRead(ops: Ops, s: string, j: Json)
    ensures Normalized(ops, JString(s)) == Trim(s) == Normalized(ops, JNumber(s)) && Normalized(ops, JNull) == ""
    ensures j.JBool? || j.JArray? || j.JObject? ==> Normalized(ops, j) == Trim(ops.render(j))
  {
  }

  // ---- The event, key by key ----

  /** One of these keys in the data object, or if that gives nothing, in the payload. */
  ghost predicate Under(ops: Ops, data: Fields, payload: Fields, keys: seq<string>, text: string) {
    exists a, b :: MayPick(ops, data, keys, a) && MayPick(ops, payload, keys, b) && text == if a != "" then a else b
  }

  /** The type: "event" or "type", the payload's before the data object's; failing that "status", in the same
      order; failing that "notification". */
  ghost predicate TypeUnder(ops: Ops, data: Fields, payload: Fields, eventType: string) {
    exists a, b, c, d ::
      MayPick(ops, payload, ["event", "type"], a) && MayPick(ops, data, ["event", "type"], b) &&
      MayPick(ops, payload, ["status"], c) && MayPick(ops, data, ["status"], d) &&
      eventType == if a != "" then a else if b != "" then b else if c != "" then c else if d != "" then d
                   else "notification"
  }

  /** The status text: "status", the data object's before the payload's; failing that the event type. */
  ghost predicate StatusUnder(ops: Ops, data: Fields, payload: Fields, eventType: string, status: string) {
    exists a, b :: MayPick(ops, data, ["status"], a) && MayPick(ops, payload, ["status"], b) &&
                   status == if a != "" then a else if b != "" then b else eventType
  }

  lemma FirstOfTwo(a: string, b: string)
    requires Trimmed(a) && Trimmed(b)
    ensures FirstNonEmpty([a, b]) == if a != "" then a else b
  {
    assert [a, b][1..] == [b] && [b][1..] == [];
  }

  lemma FirstOfFour(a: string, b: string, c: string, d: string)
    requires Trimmed(a) && Trimmed(b) && Trimmed(c) && Trimmed(d)
    ensures FirstNonEmpty([a, b, c, d]) == if a != "" then a else if b != "" then b else if c != "" then c else d
  {
    assert [a, b, c, d][1..] == [b, c, d] && [b, c, d][1..] == [c, d];
    FirstOfTwo(c, d);
  }

  lemma EitherIsUnder(ops: Ops, data: Fields, payload: Fields, keys: seq<string>, text: string)
    requires MayEither(ops, data, payload, keys, text)
    ensures Under(ops, data, payload, keys, text) && Trimmed(text)
  {
    hide MayPick, FirstNonEmpty;
    var a, b :| MayPick(ops, data, keys, a) && MayPick(ops, payload, keys, b) && text == FirstNonEmpty([a, b]);
    PickTrimmed(ops, data, keys, a);
    PickTrimmed(ops, payload, keys, b);
    FirstOfTwo(a, b);
  }

  lemma TypeIsUnder(ops: Ops, data: Fields, payload: Fields, eventType: string)
    requires MayEventType(ops, data, payload, eventType)
    ensures TypeUnder(ops, data, payload, eventType) && Trimmed(eventType) && eventType != ""
  {
    hide MayPick, FirstNonEmpty;
    var a, b, c, d :|
      MayPick(ops, payload, TYPE_KEYS, a) && MayPick(ops, data, TYPE_KEYS, b) &&
      MayPick(ops, payload, STATUS_KEYS, c) && MayPick(ops, data, STATUS_KEYS, d) &&
      eventType == OrNotification(FirstNonEmpty([a, b, c, d]));
    PickTrimmed(ops, payload, TYPE_KEYS, a);
    PickTrimmed(ops, data, TYPE_KEYS, b);
    PickTrimmed(ops, payload, STATUS_KEYS, c);
    PickTrimmed(ops, data, STATUS_KEYS, d);
    FirstOfFour(a, b, c, d);
    assert Trimmed("notification");
  }

  lemma StatusIsUnder(ops: Ops, data: Fields, payload: Fields, eventType: string, status: string)
    requires MayStatus(ops, data, payload, eventType, status) && Trimmed(eventType)
    ensures StatusUnder(ops, data, payload, eventType, status)
  {
    hide MayPick, FirstNonEmpty;
    var a, b :| MayPick(ops, data, STATUS_KEYS, a) && MayPick(ops, payload, STATUS_KEYS, b) &&
                status == FirstNonEmpty([a, b, eventType]);
    PickTrimmed(ops, data, STATUS_KEYS, a);
    PickTrimmed(ops, payload, STATUS_KEYS, b);
    FirstOfFour(a, b, eventType, "");
    FirstOfThree(a, b, eventType);
  }

  lemma FirstOfThree(a: string, b: string, c: string)
    requires Trimmed(a) && Trimmed(b) && Trimmed(c)
    ensures FirstNonEmpty([a, b, c]) == if a != "" then a else if b != "" then b else c
  {
    assert [a, b, c][1..] == [b, c];
    FirstOfTwo(b, c);
  }

  /** The keys of the object an event is about, the most specific first. */
  ghost predicate ObjectUnder(ops: Ops, data: Fields, payload: Fields, eventType: string, objectId: string) {
    if IsRefundEvent(eventType) then
      Under(ops, data, payload, ["refund_id", "id", "payment_request_id", "payment_id", "invoice_id"], objectId)
    else
      Under(ops, data, payload,
            ["payment_id", "capture_id", "refund_id", "payment_request_id", "payment_token_id", "invoice_id", "id"],
            objectId)
  }

  /** The event's status, reference and id, from the status text, the object id and the reference found under
      the reference keys. */
  ghost predicate RestUnder(ops: Ops, data: Fields, payload: Fields, e: ParsedEvent, objectId: string) {
    exists status, found ::
      && StatusUnder(ops, data, payload, e.eventType, status) && e.status == ops.mapStatus(e.eventType, status)
      && Under(ops, data, payload, ["reference_id", "external_id", "order_id", "payment_request_id", "invoice_id"],
               found)
      && e.paymentRef == (if found != "" then found else objectId)
      && e.eventId == (if objectId != "" then e.eventType + ":" + objectId
                       else if found != "" then e.eventType + ":" + found else "")
  }

  /** Every event a body can parse to, key by key. */
  lemma KeysExactly(ops: Ops, data: Fields, payload: Fields, e: ParsedEvent, objectId: string)
    requires MayEvent(ops, data, payload, e, objectId)
    ensures TypeUnder(ops, data, payload, e.eventType)
    ensures ObjectUnder(ops, data, payload, e.eventType, objectId)
    ensures RestUnder(ops, data, payload, e, objectId)
  {
    hide MayPick, MayEither, MayEventType, MayStatus, Under, TypeUnder, StatusUnder, FirstNonEmpty, IsRefundEvent,
         EventIds.EventId, Assembled;
    TypeIsUnder(ops, data, payload, e.eventType);
    EitherIsUnder(ops, data, payload, ObjectIdKeys(e.eventType), objectId);
    var status, found :|
      MayStatus(ops, data, payload, e.eventType, status) && MayEither(ops, data, payload, REFERENCE_KEYS, found) &&
      e == Assembled(ops, e.eventType, status, objectId, found);
    StatusIsUnder(ops, data, payload, e.eventType, status);
    EitherIsUnder(ops, data, payload, REFERENCE_KEYS, found);
    AssembledTexts(ops, e.eventType, status, objectId, found);
  }

  lemma AssembledTexts(ops: Ops, eventType: string, status: string, objectId: string, found: string)
    requires Trimmed(eventType) && eventType != "" && Trimmed(objectId) && Trimmed(found)
    ensures var e := Assembled(ops, eventType, status, objectId, found);
            && e.eventType == eventType && e.status == ops.mapStatus(eventType, status)
            && e.paymentRef == (if found != "" then found else objectId)
            && e.eventId == (if objectId != "" then eventType + ":" + objectId
                             else if found != "" then eventType + ":" + found else "")
  {
    hide EventIds.EventId;
    if objectId != "" {
      EventIds.EventIdOfTwo(eventType, objectId);
    } else if found != "" {
      EventIds.EventIdOfTwo(eventType, found);
    }
  }

  /** A refund event is about the refund: the data object's "refund_id", or without that its "id", whatever
      keys of the payment stand beside it. */
  lemma RefundIsTheObject(ops: Ops, data: Fields, payload: Fields, e: ParsedEvent, objectId: string, id: string)
    requires MayEvent(ops, data, payload, e, objectId) && IsRefundEvent(e.eventType) && id != ""
    requires Holds(ops, data, "refund_id", id) || (Lacks(ops, data, "refund_id") && Holds(ops, data, "id", id))
    ensures objectId == id && e.eventId == e.eventType + ":" + id
  {
    hide MayEvent, MayPick, Holds, IsRefundEvent;
    KeysExactly(ops, data, payload, e, objectId);
    var keys := ["refund_id", "id", "payment_request_id", "payment_id", "invoice_id"];
    var a, b :| MayPick(ops, data, keys, a) && MayPick(ops, payload, keys, b) && objectId == if a != "" then a else b;
    PickFirst(ops, data, keys, if Holds(ops, data, "refund_id", id) then 0 else 1, id, a);
  }

  /** Any other event is about the payment its data object names as "payment_id"; its "id" counts last. */
  lemma PaymentIsTheObject(ops: Ops, data: Fields, payload: Fields, e: ParsedEvent, objectId: string, id: string)
    requires MayEvent(ops, data, payload, e, objectId) && !IsRefundEvent(e.eventType) && id != ""
    requires Holds(ops, data, "payment_id", id) ||
             (Holds(ops, data, "id", id) && Lacks(ops, data, "payment_id") && Lacks(ops, data, "capture_id") &&
              Lacks(ops, data, "refund_id") && Lacks(ops, data, "payment_request_id") &&
              Lacks(ops, data, "payment_token_id") && Lacks(ops, data, "invoice_id"))
    ensures objectId == id && e.eventId == e.eventType + ":" + id
  {
    hide MayEvent, MayPick, Holds, Lacks, IsRefundEvent;
    KeysExactly(ops, data, payload, e, objectId);
    var keys := ["payment_id", "capture_id", "refund_id", "payment_request_id", "payment_token_id", "invoice_id", "id"];
    var a, b :| MayPick(ops, data, keys, a) && MayPick(ops, payload, keys, b) && objectId == if a != "" then a else b;
    PickFirst(ops, data, keys, if Holds(ops, data, "payment_id", id) then 0 else 6, id, a);
  }

  // ---- From the body ----

  /** The object's "data", in some case, is only ever this object. */
  ghost predicate HoldsData(ops: Ops, m: Fields, data: Fields) {
    && Hits(ops.fold, m, "data") != {}
    && forall k | k in Hits(ops.fold, m, "data") :: m[k] == JObject(data)
  }

  /** A body without envelopes is read as it stands, with the object under "data". */
  lemma BareBody(ops: Ops, body: Fields, data: Fields, e: ParsedEvent, objectId: string)
    requires Bare(ops.fold, body) && Bare(ops.fold, data) && HoldsData(ops, body, data)
    requires MayParse(ops, body, e, objectId)
    ensures MayEvent(ops, data, body, e, objectId)
  {
    hide MayEvent, Bare;
    var payload, inner :| MayUnwrap(ops.fold, body, payload) && MayData(ops.fold, payload, inner) &&
                          MayEvent(ops, inner, payload, e, objectId);
    BareStays(ops.fold, body, payload);
    var child :| MayChild(ops.fold, body, "data", Some(child)) && MayUnwrap(ops.fold, child, inner);
    assert child == data;
    BareStays(ops.fold, data, inner);
  }

  const REFUND_DATA: Fields := map[
    "id" := JString("rfd_123"), "payment_request_id" := JString("pr_123"),
    "reference_id" := JString("refund-001"), "status" := JString("SUCCEEDED")]

  const REFUND_BODY: Fields := map["event" := JString("refund.succeeded"), "data" := JObject(REFUND_DATA)]

  /** Folding that keeps all characters apart. */
  ghost predicate Apart(fold: char -> char) {
    forall c, d :: fold(c) == fold(d) ==> c == d
  }

  lemma ApartHits(fold: char -> char, m: Fields, key: string)
    requires Apart(fold)
    ensures Hits(fold, m, key) == if key in m then {key} else {}
  {
    forall k | EqualFold(fold, k, key) ensures k == key {
      forall i | 0 <= i < |k| ensures k[i] == key[i] {
        assert fold(k[i]) == fold(key[i]);
      }
    }
  }

  /** A refund webhook as Xendit sends it is about the refund, not the payment it names beside it. */
  lemma RefundBodyIsAboutTheRefund(ops: Ops, e: ParsedEvent, objectId: string)
    requires Apart(ops.fold) && MayParse(ops, REFUND_BODY, e, objectId)
    ensures e.eventType == "refund.succeeded" && objectId == "rfd_123" && e.eventId == "refund.succeeded:rfd_123"
    ensures e.paymentRef == "refund-001" && e.status == ops.mapStatus("refund.succeeded", "SUCCEEDED")
  {
    hide MayParse, MayEvent, MayPick, IsRefundEvent, Lower, Apart, Holds, Lacks, HoldsData, Bare, TypeUnder,
         ObjectUnder, RestUnder;
    RefundBodyShape(ops);
    BareBody(ops, REFUND_BODY, REFUND_DATA, e, objectId);
    KeysExactly(ops, REFUND_DATA, REFUND_BODY, e, objectId);
    ExampleType(ops, e.eventType);
    RefundEventExamples();
    RefundIsTheObject(ops, REFUND_DATA, REFUND_BODY, e, objectId, "rfd_123");
    ExampleRest(ops, e, objectId);
    ExampleId();
  }

  lemma ExampleId()
    ensures "refund.succeeded" + ":" + "rfd_123" == "refund.succeeded:rfd_123"
  {
  }

  lemma KeyHolds(ops: Ops, m: Fields, key: string, text: string)
    requires Apart(ops.fold) && Trimmed(text)
    ensures key in m && m[key] == JString(text) ==> Holds(ops, m, key, text)
    ensures key !in m ==> Lacks(ops, m, key)
  {
    ApartHits(ops.fold, m, key);
  }

  lemma DataHolds(ops: Ops, m: Fields, data: Fields)
    requires Apart(ops.fold) && "data" in m && m["data"] == JObject(data)
    ensures HoldsData(ops, m, data)
  {
    ApartHits(ops.fold, m, "data");
  }

  lemma RefundBodyShape(ops: Ops)
    requires Apart(ops.fold)
    ensures Bare(ops.fold, REFUND_BODY) && Bare(ops.fold, REFUND_DATA) && HoldsData(ops, REFUND_BODY, REFUND_DATA)
    ensures Holds(ops, REFUND_BODY, "event", "refund.succeeded") && Lacks(ops, REFUND_DATA, "refund_id")
    ensures Holds(ops, REFUND_DATA, "id", "rfd_123") && Holds(ops, REFUND_DATA, "reference_id", "refund-001")
    ensures Holds(ops, REFUND_DATA, "status", "SUCCEEDED")
  {
    hide Apart, Holds, Lacks, HoldsData, Bare;
    RefundDataShape(ops);
    KeyHolds(ops, REFUND_BODY, "event", "refund.succeeded");
    DataHolds(ops, REFUND_BODY, REFUND_DATA);
    BareKeys(ops, REFUND_BODY, "event", "data");
  }

  lemma RefundDataShape(ops: Ops)
    requires Apart(ops.fold)
    ensures Bare(ops.fold, REFUND_DATA) && Lacks(ops, REFUND_DATA, "refund_id")
    ensures Holds(ops, REFUND_DATA, "id", "rfd_123") && Holds(ops, REFUND_DATA, "reference_id", "refund-001")
    ensures Holds(ops, REFUND_DATA, "status", "SUCCEEDED")
  {
    hide Apart, Holds, Lacks, HoldsData, Bare;
    KeyHolds(ops, REFUND_DATA, "refund_id", "");
    KeyHolds(ops, REFUND_DATA, "id", "rfd_123");
    KeyHolds(ops, REFUND_DATA, "reference_id", "refund-001");
    KeyHolds(ops, REFUND_DATA, "status", "SUCCEEDED");
    BareKeys(ops, REFUND_DATA, "id", "status");
  }

  lemma BareKeys(ops: Ops, m: Fields, a: string, b: string)
    requires Apart(ops.fold) && a in m && b in m && a != b && "value" !in m
    ensures Bare(ops.fold, m)
  {
    ApartHits(ops.fold, m, "value");
    assert |m| != 1 by {
      if |m| == 1 {
        OnlyKey(m);
      }
    }
    forall k | k in m ensures !EqualFold(ops.fold, k, "value") {
      assert k !in Hits(ops.fold, m, "value");
    }
  }

  lemma ExampleType(ops: Ops, eventType: string)
    requires Holds(ops, REFUND_BODY, "event", "refund.succeeded") && TypeUnder(ops, REFUND_DATA, REFUND_BODY, eventType)
    ensures eventType == "refund.succeeded"
  {
    hide MayPick, Holds, Lacks;
    var a, b, c, d :|
      MayPick(ops, REFUND_BODY, ["event", "type"], a) && MayPick(ops, REFUND_DATA, ["event", "type"], b) &&
      MayPick(ops, REFUND_BODY, ["status"], c) && MayPick(ops, REFUND_DATA, ["status"], d) &&
      eventType == if a != "" then a else if b != "" then b else if c != "" then c else if d != "" then d
                   else "notification";
    PickFirst(ops, REFUND_BODY, ["event", "type"], 0, "refund.succeeded", a);
  }

  lemma ExampleRest(ops: Ops, e: ParsedEvent, objectId: string)
    requires Holds(ops, REFUND_DATA, "reference_id", "refund-001") && Holds(ops, REFUND_DATA, "status", "SUCCEEDED")
    requires RestUnder(ops, REFUND_DATA, REFUND_BODY, e, objectId)
    ensures e.paymentRef == "refund-001" && e.status == ops.mapStatus(e.eventType, "SUCCEEDED")
  {
    hide MayPick, Holds, Lacks;
    var keys := ["reference_id", "external_id", "order_id", "payment_request_id", "invoice_id"];
    var status, found :|
      && StatusUnder(ops, REFUND_DATA, REFUND_BODY, e.eventType, status)
      && e.status == ops.mapStatus(e.eventType, status)
      && Under(ops, REFUND_DATA, REFUND_BODY, keys, found) && e.paymentRef == (if found != "" then found else objectId);
    var a, b :| MayPick(ops, REFUND_DATA, keys, a) && MayPick(ops, REFUND_BODY, keys, b) &&
                found == if a != "" then a else b;
    PickFirst(ops, REFUND_DATA, keys, 0, "refund-001", a);
    var c, d :| MayPick(ops, REFUND_DATA, ["status"], c) && MayPick(ops, REFUND_BODY, ["status"], d) &&
                status == if c != "" then c else if d != "" then d else e.eventType;
    PickFirst(ops, REFUND_DATA, ["status"], 0, "SUCCEEDED", c);
  }
}
