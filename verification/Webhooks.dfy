/** Processing one webhook delivery: verify, parse, drop duplicates, reconcile, record, forward. */
module Webhooks {
  import opened Text
  import opened Json
  import opened Ledger
  import EventIds
  import RefundQuery

  /** A webhook handed to the forwarder, named by its stored event row. */
  datatype Inbound = Inbound(eventId: Id, provider: string)

  /** The tables and everything handed to the forwarder so far. */
  datatype World = World(db: Db, sent: seq<Inbound>)

  /** What the provider's handler says of the body. NoHandler: the provider has none. */
  datatype Handling = NoHandler | Rejected | Unparsed | Parsed(event: ParsedEvent, payload: Option<Json>)

  datatype Delivery = Delivery(
    provider: string, handling: Handling, now: int, prefer: nat, faults: set<Point>, forwards: bool)

  /** The HTTP status answered and the id of the stored event, if any. */
  datatype Reply = Reply(code: int, eventId: Option<Id>)

  function Record(db: Db, d: Delivery, eventId: string, eventType: string, valid: bool, processing: string)
    : (Db, Result<Id>)
  {
    if InsertEvent in d.faults then (db, Err(Failure))
    else AddEvent(db, Trim(d.provider), eventId, eventType, valid, processing, d.now)
  }

  /** Record and answer `code`; a delivery that cannot be recorded is answered 500. */
  function RecordOnly(w: World, d: Delivery, eventId: string, eventType: string, processing: string, code: int)
    : (World, Reply)
  {
    var (db, r) := Record(w.db, d, eventId, eventType, true, processing);
    (w.(db := db), if r.Ok? then Reply(code, Some(r.value)) else Reply(500, None))
  }

  /** Record, then hand to the forwarder. A forwarding error does not change the answer's code. */
  function RecordAndForward(w: World, d: Delivery, eventId: string, eventType: string, valid: bool, processing: string)
    : (World, Reply)
  {
    var (db, r) := Record(w.db, d, eventId, eventType, valid, processing);
    if r.Err? then (w.(db := db), Reply(500, None))
    else
      var sent := if d.forwards then w.sent + [Inbound(r.value, Trim(d.provider))] else w.sent;
      (World(db, sent), Reply(202, Some(r.value)))
  }

  function ReconcileRefund(db: Db, d: Delivery, event: ParsedEvent, payload: Option<Json>): (Db, Result<string>) {
    var identifiers := EventIds.Identifiers(event.paymentRef, event.eventId);
    if event.status == Unset || identifiers == [] then (db, Ok("unmatched"))
    else
      var (after, r) := RefundQuery.Reconcile(db, Trim(d.provider), identifiers, event.status, payload,
                                              d.now, d.prefer, d.faults);
      (after, match r
              case Ok(_) => Ok("reconciled")
              case Err(NoRows) => Ok("unmatched")
              case Err(Failure) => Err(Failure))
  }

  function ReconcilePayment(db: Db, d: Delivery, event: ParsedEvent): (Db, Result<string>) {
    var reference := Trim(event.paymentRef);
    if reference == "" then (db, Ok("unmatched"))
    else if LookupIntent in d.faults then (db, Err(Failure))
    else
      match FindRef(db.intents, reference)
      case None => (db, Ok("unmatched"))
      case Some(k) =>
        var intent := db.intents[k];
        if intent.provider != Trim(d.provider) then (db, Ok("unmatched"))
        else if intent.status == event.status then (db, Ok("duplicate"))
        else
          var (after, r) := SetStatus(db, intent, event.status, d.now, FinalUpsert in d.faults,
                                      FinalReload in d.faults);
          (after, if r.Ok? then Ok("reconciled") else Err(Failure))
  }

  function ReconcileEvent(db: Db, d: Delivery, event: ParsedEvent, payload: Option<Json>): (Db, Result<string>) {
    if IsRefundEvent(event.eventType) then ReconcileRefund(db, d, event, payload)
    else ReconcilePayment(db, d, event)
  }

  /** Looked up by the trimmed id; stored as parsed. */
  predicate IsDuplicate(db: Db, provider: string, eventId: string) {
    HasEvent(db, provider, Trim(eventId))
  }

  function ProcessParsed(w: World, d: Delivery, event: ParsedEvent, payload: Option<Json>): (World, Reply) {
    if Trim(event.eventId) != "" && LookupEvent in d.faults then
      RecordOnly(w, d, event.eventId, event.eventType, "duplicate_lookup_failed", 500)
    else if IsDuplicate(w.db, Trim(d.provider), event.eventId) then
      RecordOnly(w, d, event.eventId, event.eventType, "duplicate", 202)
    else
      var (db, r) := ReconcileEvent(w.db, d, event, payload);
      if r.Err? then RecordOnly(w.(db := db), d, event.eventId, event.eventType, "reconcile_failed", 500)
      else RecordAndForward(w.(db := db), d, event.eventId, event.eventType, true, r.value)
  }

  function Process(w: World, d: Delivery): (World, Reply) {
    if Trim(d.provider) == "" then (w, Reply(400, None))
    else
      match d.handling
      case NoHandler => RecordAndForward(w, d, "", "unknown", false, "received")
      case Rejected =>
        (w.(db := Record(w.db, d, "", "verification_failed", false, "rejected").0), Reply(400, None))
      case Unparsed => RecordOnly(w, d, "", "parse_error", "parse_failed", 202)
      case Parsed(event, payload) => ProcessParsed(w, d, event, payload)
  }
}
