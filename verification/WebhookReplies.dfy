/** What the webhook service answers to a delivery and records about it, written out case by case from the
    delivery and the state before it. */
module WebhookReplies {
  import opened Text
  import opened Json
  import opened Ledger
  import opened LedgerInvariants
  import EventIds
  import RefundQuery
  import PaymentEffects
  import W = Webhooks

  // ---- Reconciliation ----

  /** A payment webhook finds an intent of its own provider. */
  predicate OwnIntent(db: Db, d: W.Delivery, event: ParsedEvent) {
    var found := FindRef(db.intents, Trim(event.paymentRef));
    found.Some? && db.intents[found.value].provider == Trim(d.provider)
  }

  /** The intent it finds has another status, so a write is due. */
  predicate WriteDue(db: Db, d: W.Delivery, event: ParsedEvent) {
    Trim(event.paymentRef) != "" && LookupIntent !in d.faults && OwnIntent(db, d, event) &&
    db.intents[FindRef(db.intents, Trim(event.paymentRef)).value].status != event.status
  }

  /** What a payment webhook comes to, and what it leaves. */
  lemma PaymentOutcome(db: Db, d: W.Delivery, event: ParsedEvent)
    requires Consistent(db)
    ensures var (after, r) := W.ReconcilePayment(db, d, event);
            var ref := Trim(event.paymentRef);
            && (r == Ok("unmatched") <==> ref == "" || (LookupIntent !in d.faults && !OwnIntent(db, d, event)))
            && (r == Ok("duplicate") <==> ref != "" && LookupIntent !in d.faults && OwnIntent(db, d, event) &&
                                          db.intents[FindRef(db.intents, ref).value].status == event.status)
            && (r == Ok("reconciled") <==>
                  WriteDue(db, d, event) && FinalUpsert !in d.faults && FinalReload !in d.faults)
            && (r == Err(Failure) <==> (ref != "" && LookupIntent in d.faults) ||
                                       (WriteDue(db, d, event) && (FinalUpsert in d.faults || FinalReload in d.faults)))
    ensures var after := W.ReconcilePayment(db, d, event).0;
            if !WriteDue(db, d, event) || FinalUpsert in d.faults then after == db
            else
              var k := FindRef(db.intents, Trim(event.paymentRef)).value;
              after == db.(intents := db.intents[k := db.intents[k].(status := event.status, updatedAt := d.now)])
  {
    hide Trim, Consistent, SetStatus;
    var found := FindRef(db.intents, Trim(event.paymentRef));
    assert "unmatched" != "duplicate" && "unmatched" != "reconciled" && "duplicate" != "reconciled" by {
      assert |"unmatched"| == 9 && |"duplicate"| == 9 && |"reconciled"| == 10 && "unmatched"[0] != "duplicate"[0];
    }
    if found.Some? {
      PaymentEffects.KnownIntent(db, found.value);
      PaymentEffects.StatusWrite(db, found.value, event.status, d.now, FinalUpsert in d.faults,
                                 FinalReload in d.faults);
    }
  }

  /** A refund webhook names a status and something to look for. */
  predicate Searches(event: ParsedEvent) {
    event.status != Unset && EventIds.Identifiers(event.paymentRef, event.eventId) != []
  }

  /** Some stored refund of the provider has an identifier in a searched field. */
  ghost predicate FindsSome(db: Db, d: W.Delivery, event: ParsedEvent) {
    var ids := EventIds.Identifiers(event.paymentRef, event.eventId);
    exists row <- db.refunds :: RefundQuery.Finder(Trim(d.provider), ids)(row)
  }

  /** Some step of the reconciliation fails; the intent is only written for a refund status. */
  predicate StepFails(event: ParsedEvent, faults: set<Point>) {
    BeginTx in faults || SelectRefund in faults || UpdateRefund in faults || CommitTx in faults ||
    (PaymentEffects.Refunds(event.status) && UpdateIntent in faults)
  }

  /** What a refund webhook comes to; unless it is reconciled it changes nothing. */
  lemma RefundOutcome(db: Db, d: W.Delivery, event: ParsedEvent, payload: Option<Json>)
    requires Consistent(db)
    ensures var (after, r) := W.ReconcileRefund(db, d, event, payload);
            && (r == Ok("reconciled") <==> Searches(event) && FindsSome(db, d, event) && !StepFails(event, d.faults))
            && (r == Ok("unmatched") <==> !Searches(event) || (!FindsSome(db, d, event) && BeginTx !in d.faults &&
                                                               SelectRefund !in d.faults))
            && (r.Ok? ==> r.value == "reconciled" || r.value == "unmatched")
            && (r != Ok("reconciled") ==> after == db)
  {
    hide Trim, Consistent, EventIds.Identifiers, EventIds.CleanParts, RefundQuery.Reconcile, RefundQuery.Finder,
         Picked, RowSettled;
    assert "unmatched" != "reconciled" by {
      assert |"unmatched"| == 9 && |"reconciled"| == 10;
    }
    var ids := EventIds.Identifiers(event.paymentRef, event.eventId);
    CleanIdentifiers(event);
    ReconcileExact(db, Trim(d.provider), ids, event.status, payload, d.now, d.prefer, d.faults);
  }

  lemma CleanIdentifiers(event: ParsedEvent)
    ensures EventIds.CleanParts(EventIds.Identifiers(event.paymentRef, event.eventId)) ==
            EventIds.Identifiers(event.paymentRef, event.eventId)
  {
    var ids := EventIds.Identifiers(event.paymentRef, event.eventId);
    EventIds.IdentifiersTrimmed(event.paymentRef, event.eventId);
    forall i | 0 <= i < |ids| ensures ids[i] != "" && Trimmed(ids[i]) {
      assert ids[i] in ids;
    }
    EventIds.CleanIsClean(ids);
  }

  // ---- The answer and the row ----

  /** The delivery's row can be written. */
  predicate Writable(d: W.Delivery) {
    InsertEvent !in d.faults && PaymentEffects.KnownProvider(Trim(d.provider))
  }

  predicate LookupFails(d: W.Delivery, event: ParsedEvent) {
    Trim(event.eventId) != "" && LookupEvent in d.faults
  }

  /** The log has an event of the provider with the trimmed id. */
  ghost predicate Known(db: Db, d: W.Delivery, event: ParsedEvent) {
    Trim(event.eventId) != "" &&
    exists e <- db.events :: e.provider == Trim(d.provider) && e.eventId == Trim(event.eventId)
  }

  /** The delivery is reconciled, and that fails. */
  ghost predicate ReconcileFails(db: Db, d: W.Delivery, event: ParsedEvent, payload: Option<Json>) {
    !LookupFails(d, event) && !Known(db, d, event) && W.ReconcileEvent(db, d, event, payload).1.Err?
  }

  /** The answer's code. 400: no provider is named or the body is rejected. 500: the row cannot be written, or
      the lookup or the reconciliation fails. 202: everything else. */
  ghost predicate CodeIs(db: Db, d: W.Delivery, code: int) {
    if Trim(d.provider) == "" || d.handling.Rejected? then code == 400
    else if !Writable(d) then code == 500
    else if d.handling.Parsed? && (LookupFails(d, d.handling.event) ||
                                   ReconcileFails(db, d, d.handling.event, d.handling.payload)) then code == 500
    else code == 202
  }

  /** The row a delivery is recorded as. */
  ghost predicate RowIs(db: Db, d: W.Delivery, row: Event) {
    && row.provider == Trim(d.provider) && row.receivedAt == d.now
    && match d.handling
       case NoHandler =>
         row.eventId == "" && row.eventType == "unknown" && !row.signatureValid && row.processing == "received"
       case Rejected =>
         row.eventId == "" && row.eventType == "verification_failed" && !row.signatureValid &&
         row.processing == "rejected"
       case Unparsed =>
         row.eventId == "" && row.eventType == "parse_error" && row.signatureValid && row.processing == "parse_failed"
       case Parsed(event, payload) =>
         && row.eventId == event.eventId && row.signatureValid
         && row.eventType == (if event.eventType == "" then "unknown" else event.eventType)
         && (LookupFails(d, event) ==> row.processing == "duplicate_lookup_failed")
         && (!LookupFails(d, event) && Known(db, d, event) ==> row.processing == "duplicate")
         && (ReconcileFails(db, d, event, payload) ==> row.processing == "reconcile_failed")
         && (!LookupFails(d, event) && !Known(db, d, event) && !ReconcileFails(db, d, event, payload) ==>
               Ok(row.processing) == W.ReconcileEvent(db, d, event, payload).1)
  }

  /** The row of this delivery was added, and nothing else, or nothing was. */
  ghost predicate RowsAre(db: Db, after: Db, d: W.Delivery) {
    if Trim(d.provider) == "" || !Writable(d) then after.events == db.events
    else
      && |after.events| == |db.events| + 1 && db.events <= after.events
      && RowIs(db, d, after.events[|db.events|]) && after.events[|db.events|].id + 1 == after.nextId
  }

  /** The event id in the answer: that of the row just added, and none when there is no row or the body was
      rejected. */
  ghost predicate AnswersRow(db: Db, after: Db, d: W.Delivery, eventId: Option<Id>) {
    if Trim(d.provider) == "" || d.handling.Rejected? || !Writable(d) then eventId.None?
    else |after.events| > |db.events| && eventId == Some(after.events[|db.events|].id)
  }

  /** Every delivery is answered and recorded so. */
  lemma ReplyExactly(w: W.World, d: W.Delivery)
    ensures var (after, reply) := W.Process(w, d); Answered(w.db, d, after.db, reply)
  {
    hide Trim, W.Record, W.ProcessParsed, W.RecordOnly, W.RecordAndForward, Answered;
    if Trim(d.provider) == "" {
      BlankAnswered(w.db, d);
    } else {
      match d.handling
      case NoHandler => ForwardedRow(w.db, w, d, "", "unknown", false, "received");
      case Rejected => RowAnswered(w.db, w.db, d, "", "verification_failed", false, "rejected", 400);
      case Unparsed => OnlyRow(w.db, w, d, "", "parse_error", "parse_failed", 202);
      case Parsed(event, payload) => ParsedReply(w, d, event, payload);
    }
  }

  ghost predicate Answered(db: Db, d: W.Delivery, after: Db, reply: W.Reply) {
    CodeIs(db, d, reply.code) && RowsAre(db, after, d) && AnswersRow(db, after, d, reply.eventId)
  }

  lemma BlankAnswered(db: Db, d: W.Delivery)
    requires Trim(d.provider) == ""
    ensures Answered(db, d, db, W.Reply(400, None))
  {
  }

  /** The row and answer that recording gives are those of the delivery, if row and code fit it. */
  lemma RowAnswered(db: Db, mid: Db, d: W.Delivery, eventId: string, eventType: string, valid: bool,
                    processing: string, code: int)
    requires Trim(d.provider) != "" && processing != "" && mid.events == db.events
    requires CodeIs(db, d, if Writable(d) || d.handling.Rejected? then code else 500)
    requires var kind := if eventType == "" then "unknown" else eventType;
             RowIs(db, d, Event(mid.nextId, Trim(d.provider), eventId, kind, valid, processing, d.now))
    ensures var (after, r) := W.Record(mid, d, eventId, eventType, valid, processing);
            && (r.Ok? <==> Writable(d))
            && (r.Ok? ==> Answered(db, d, after, W.Reply(code, if d.handling.Rejected? then None else Some(r.value))))
            && (r.Err? ==> Answered(db, d, after, W.Reply(if d.handling.Rejected? then 400 else 500, None)))
  {
    hide Trim, W.Record, RowIs, Writable;
    RecordedRow(mid, d, eventId, eventType, valid, processing);
  }

  /** A row of the delivery's provider, "unknown" without a type and "received" without a state. */
  lemma RecordedRow(db: Db, d: W.Delivery, eventId: string, eventType: string, valid: bool, processing: string)
    ensures var kind := if eventType == "" then "unknown" else eventType;
            var state := if processing == "" then "received" else processing;
            var (after, r) := W.Record(db, d, eventId, eventType, valid, processing);
            && (r.Ok? <==> Writable(d))
            && (r.Err? ==> after == db)
            && (r.Ok? ==> r.value == db.nextId && after.nextId == db.nextId + 1 &&
                          after.events == db.events + [Event(db.nextId, Trim(d.provider), eventId, kind, valid,
                                                             state, d.now)])
  {
    hide Trim;
  }

  lemma OnlyRow(db: Db, mid: W.World, d: W.Delivery, eventId: string, eventType: string, processing: string, code: int)
    requires Trim(d.provider) != "" && processing != "" && mid.db.events == db.events && !d.handling.Rejected?
    requires CodeIs(db, d, if Writable(d) then code else 500)
    requires var kind := if eventType == "" then "unknown" else eventType;
             RowIs(db, d, Event(mid.db.nextId, Trim(d.provider), eventId, kind, true, processing, d.now))
    ensures var (after, reply) := W.RecordOnly(mid, d, eventId, eventType, processing, code);
            Answered(db, d, after.db, reply)
  {
    hide Trim, W.Record, Answered, RowIs, CodeIs, Writable;
    RowAnswered(db, mid.db, d, eventId, eventType, true, processing, code);
    var (after, r) := W.Record(mid.db, d, eventId, eventType, true, processing);
    var (end, reply) := W.RecordOnly(mid, d, eventId, eventType, processing, code);
    assert end.db == after && reply == if r.Ok? then W.Reply(code, Some(r.value)) else W.Reply(500, None);
  }

  lemma ForwardedRow(db: Db, mid: W.World, d: W.Delivery, eventId: string, eventType: string, valid: bool,
                     processing: string)
    requires Trim(d.provider) != "" && processing != "" && mid.db.events == db.events && !d.handling.Rejected?
    requires CodeIs(db, d, if Writable(d) then 202 else 500)
    requires var kind := if eventType == "" then "unknown" else eventType;
             RowIs(db, d, Event(mid.db.nextId, Trim(d.provider), eventId, kind, valid, processing, d.now))
    ensures var (after, reply) := W.RecordAndForward(mid, d, eventId, eventType, valid, processing);
            Answered(db, d, after.db, reply)
  {
    hide Trim, W.Record, Answered, RowIs, CodeIs, Writable;
    RowAnswered(db, mid.db, d, eventId, eventType, valid, processing, 202);
    var (after, r) := W.Record(mid.db, d, eventId, eventType, valid, processing);
    var (end, reply) := W.RecordAndForward(mid, d, eventId, eventType, valid, processing);
    assert end.db == after && reply == if r.Ok? then W.Reply(202, Some(r.value)) else W.Reply(500, None);
  }

  lemma OutcomeNamed(db: Db, d: W.Delivery, event: ParsedEvent, payload: Option<Json>)
    ensures var r := W.ReconcileEvent(db, d, event, payload).1;
            r.Ok? ==> r.value == "reconciled" || r.value == "unmatched" || r.value == "duplicate"
  {
    hide Trim, EventIds.Identifiers, IsRefundEvent, RefundQuery.Reconcile, SetStatus;
  }

  lemma ParsedReply(w: W.World, d: W.Delivery, event: ParsedEvent, payload: Option<Json>)
    requires d.handling == W.Parsed(event, payload) && Trim(d.provider) != ""
    ensures var (after, reply) := W.ProcessParsed(w, d, event, payload); Answered(w.db, d, after.db, reply)
  {
    hide Trim, W.Record, W.ReconcileEvent, W.RecordOnly, W.RecordAndForward, Answered;
    if LookupFails(d, event) {
      OnlyRow(w.db, w, d, event.eventId, event.eventType, "duplicate_lookup_failed", 500);
    } else if Known(w.db, d, event) {
      OnlyRow(w.db, w, d, event.eventId, event.eventType, "duplicate", 202);
    } else {
      var (db, r) := W.ReconcileEvent(w.db, d, event, payload);
      EventsStay(w.db, d, event, payload);
      OutcomeNamed(w.db, d, event, payload);
      if r.Ok? {
        ForwardedRow(w.db, w.(db := db), d, event.eventId, event.eventType, true, r.value);
      } else {
        OnlyRow(w.db, w.(db := db), d, event.eventId, event.eventType, "reconcile_failed", 500);
      }
    }
  }

  lemma EventsStay(db: Db, d: W.Delivery, event: ParsedEvent, payload: Option<Json>)
    ensures W.ReconcileEvent(db, d, event, payload).0.events == db.events
  {
    hide Trim, EventIds.Identifiers, EventIds.CleanParts, IsRefundEvent, Latest;
  }
}
