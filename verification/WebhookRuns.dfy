/** Webhook deliveries over whole runs: each provider event takes effect at most once, every delivery
    is accounted for, and a refund webhook reaches the refund it is about. */
module WebhookRuns {
  import opened Text
  import opened Json
  import opened Ledger
  import opened LedgerInvariants
  import opened LedgerRuns
  import EventIds
  import RefundQuery
  import X = XenditEnvelope
  import P = Payments
  import W = Webhooks
  import RefundCoupling

  // ---- One delivery ----

  /** The delivery of event `id` of `provider`. */
  predicate Delivers(c: Call, provider: string, id: string) {
    c.WebhookCall? && Trim(c.delivery.provider) == provider && c.delivery.handling.Parsed? &&
    c.delivery.handling.event.eventId == id
  }

  /** The call changed an intent or a refund. */
  predicate ChangesTables(w: W.World, c: Call) {
    Apply(w, c).db.intents != w.db.intents || Apply(w, c).db.refunds != w.db.refunds
  }

  predicate Forwards(w: W.World, c: Call) {
    Apply(w, c).sent != w.sent
  }

  /** The delivery's event row cannot be stored. */
  predicate Unrecorded(c: Call) {
    c.WebhookCall? && (InsertEvent in c.delivery.faults || Trim(c.delivery.provider) !in PROVIDERS)
  }

  /** A delivery of a stored event has no effect; a delivery that has an effect leaves the event stored,
      unless its event row could not be written, and then it is not forwarded. */
  lemma DeliveryEffects(w: W.World, c: Call, provider: string, id: string)
    requires Delivers(c, provider, id) && Trim(id) == id && id != ""
    ensures HasEvent(w.db, provider, id) ==> !ChangesTables(w, c) && !Forwards(w, c)
    ensures HasEvent(Apply(w, c).db, provider, id) || Unrecorded(c)
    ensures Unrecorded(c) ==> !Forwards(w, c)
  {
    hide Trim, W.Process, W.ReconcileEvent, HasEvent, Unrecorded;
    RefundCoupling.ProcessTables(w, c.delivery);
    ForwardsExactly(w, c, provider, id);
    StoresExactly(w, c, provider, id);
  }

  lemma RecordedIsFound(db: Db, d: W.Delivery, event: ParsedEvent, processing: string)
    ensures var (after, r) := W.Record(db, d, event.eventId, event.eventType, true, processing);
            && after.intents == db.intents && after.refunds == db.refunds
            && (r.Ok? <==> InsertEvent !in d.faults && Trim(d.provider) in PROVIDERS)
            && (r.Ok? && event.eventId != "" ==> HasEvent(after, Trim(d.provider), event.eventId))
  {
    hide Trim;
    var (after, r) := W.Record(db, d, event.eventId, event.eventType, true, processing);
    if r.Ok? {
      assert after.events[|db.events|] in after.events;
    }
  }

  lemma StillHasEvent(a: Db, b: Db, provider: string, id: string)
    requires a.events <= b.events && HasEvent(a, provider, id)
    ensures HasEvent(b, provider, id)
  {
    var e :| e in a.events && e.provider == provider && e.eventId == id;
    assert e in b.events;
  }

  // ---- At most once ----

  /** How many deliveries of the event were handed to the forwarder. */
  function Forwarded(w: W.World, calls: seq<Call>, provider: string, id: string): nat
    decreases |calls|
  {
    if calls == [] then 0
    else
      (if Delivers(calls[0], provider, id) && Forwards(w, calls[0]) then 1 else 0) +
      Forwarded(Apply(w, calls[0]), calls[1..], provider, id)
  }

  /** How many deliveries of the event changed an intent or a refund. */
  function Effective(w: W.World, calls: seq<Call>, provider: string, id: string): nat
    decreases |calls|
  {
    if calls == [] then 0
    else
      (if Delivers(calls[0], provider, id) && ChangesTables(w, calls[0]) then 1 else 0) +
      Effective(Apply(w, calls[0]), calls[1..], provider, id)
  }

  /** How many deliveries of the event could not be recorded. */
  function Unstored(calls: seq<Call>, provider: string, id: string): nat {
    if calls == [] then 0
    else
      (if Delivers(calls[0], provider, id) && Unrecorded(calls[0]) then 1 else 0) +
      Unstored(calls[1..], provider, id)
  }

  /** At most once. For a non-empty event id that trimming leaves alone, in any run and whatever fails:
      the forwarder gets the event at most once; intents and refunds are changed by at most one delivery
      besides those whose event row could not be stored; and once the event is stored neither happens. */
  lemma {:induction false} AtMostOnce(w: W.World, calls: seq<Call>, provider: string, id: string)
    requires Consistent(w.db) && Trim(id) == id && id != ""
    ensures Forwarded(w, calls, provider, id) <= (if HasEvent(w.db, provider, id) then 0 else 1)
    ensures Effective(w, calls, provider, id) <=
              (if HasEvent(w.db, provider, id) then 0 else 1 + Unstored(calls, provider, id))
    decreases |calls|
  {
    hide Consistent, Trim, Apply, Delivers, ChangesTables, Forwards, Unrecorded, HasEvent, Grows;
    if calls != [] {
      var next := Apply(w, calls[0]);
      ApplyKeeps(w, calls[0]);
      EventsGrow(w.db, next.db);
      AtMostOnce(next, calls[1..], provider, id);
      if HasEvent(w.db, provider, id) {
        StillHasEvent(w.db, next.db, provider, id);
      }
      if Delivers(calls[0], provider, id) {
        DeliveryEffects(w, calls[0], provider, id);
      }
    }
  }

  lemma EventsGrow(a: Db, b: Db)
    requires Grows(a, b)
    ensures a.events <= b.events
  {
  }

  /** Every id the adapters print qualifies. */
  lemma PrintedIdsAtMostOnce(w: W.World, calls: seq<Call>, provider: string, parts: seq<string>)
    requires Consistent(w.db) && EventIds.EventId(parts) != ""
    ensures var id := EventIds.EventId(parts);
            var stored := HasEvent(w.db, provider, id);
            && Forwarded(w, calls, provider, id) <= (if stored then 0 else 1)
            && Effective(w, calls, provider, id) <= (if stored then 0 else 1 + Unstored(calls, provider, id))
  {
    EventIds.EventIdTrimStable(parts);
    AtMostOnce(w, calls, provider, EventIds.EventId(parts));
  }

  /** The condition on ids is needed. Once an event is recorded, the next delivery of the same id is
      recognised if and only if trimming leaves the id alone (or a row with the trimmed id exists). */
  lemma RecognisedExactly(db: Db, d: W.Delivery, event: ParsedEvent, processing: string)
    requires InsertEvent !in d.faults && Trim(d.provider) in PROVIDERS && Trim(event.eventId) != ""
    ensures var after := W.Record(db, d, event.eventId, event.eventType, true, processing).0;
            W.IsDuplicate(after, Trim(d.provider), event.eventId) <==>
              Trim(event.eventId) == event.eventId || HasEvent(db, Trim(d.provider), Trim(event.eventId))
  {
    hide Trim;
    var after := W.Record(db, d, event.eventId, event.eventType, true, processing).0;
    var row := after.events[|db.events|];
    assert after.events == db.events + [row];
    assert row in after.events;
    assert forall e <- after.events :: e in db.events || e == row;
  }

  // ---- Every delivery is accounted for ----

  /** The call stores an event row: a delivery with a named, known provider whose insert works. */
  predicate Records(c: Call) {
    c.WebhookCall? && Trim(c.delivery.provider) != "" && !Unrecorded(c)
  }

  function Recorded(calls: seq<Call>): nat {
    if calls == [] then 0 else (if Records(calls[0]) then 1 else 0) + Recorded(calls[1..])
  }

  /** Every hand-over to the forwarder names an event row stored before it, of the same provider, and
      no event is handed over twice. */
  ghost predicate SentRecorded(w: W.World) {
    && (forall s <- w.sent :: exists e <- w.db.events :: e.id == s.eventId && e.provider == s.provider)
    && (forall i, j | 0 <= i < j < |w.sent| :: w.sent[i].eventId < w.sent[j].eventId)
  }

  /** One call adds at most one event row, exactly when it records; it hands over at most one webhook,
      and then it is the row just added. */
  ghost predicate Accounted(w: W.World, after: W.World, records: bool) {
    if !records then after.db.events == w.db.events && after.sent == w.sent
    else
      && |after.db.events| == |w.db.events| + 1 && w.db.events <= after.db.events
      && var e := after.db.events[|w.db.events|];
         (after.sent == w.sent || after.sent == w.sent + [W.Inbound(e.id, e.provider)])
  }

  lemma RecordAdds(db: Db, d: W.Delivery, eventId: string, eventType: string, valid: bool, processing: string)
    ensures var (after, r) := W.Record(db, d, eventId, eventType, valid, processing);
            && (r.Ok? <==> InsertEvent !in d.faults && Trim(d.provider) in PROVIDERS)
            && (r.Err? ==> after == db)
            && (r.Ok? ==> |after.events| == |db.events| + 1 && db.events <= after.events &&
                          after.events[|db.events|].id == r.value &&
                          after.events[|db.events|].provider == Trim(d.provider))
  {
    hide Trim;
  }

  lemma ReconcileLeavesEvents(db: Db, d: W.Delivery, event: ParsedEvent, payload: Option<Json>)
    ensures W.ReconcileEvent(db, d, event, payload).0.events == db.events
  {
    hide Trim, EventIds.Identifiers, EventIds.CleanParts, IsRefundEvent, Latest;
  }

  lemma RecordOnlyAccounted(w: W.World, d: W.Delivery, id: string, kind: string, processing: string, code: int)
    requires Trim(d.provider) != ""
    ensures Accounted(w, W.RecordOnly(w, d, id, kind, processing, code).0, Records(WebhookCall(d)))
  {
    hide Trim, W.Record;
    RecordAdds(w.db, d, id, kind, true, processing);
    assert W.Record(w.db, d, id, kind, true, processing).1.Ok? <==> Records(WebhookCall(d));
  }

  lemma RecordAndForwardAccounted(w: W.World, d: W.Delivery, id: string, kind: string, valid: bool, processing: string)
    requires Trim(d.provider) != ""
    ensures Accounted(w, W.RecordAndForward(w, d, id, kind, valid, processing).0, Records(WebhookCall(d)))
  {
    hide Trim, W.Record;
    RecordAdds(w.db, d, id, kind, valid, processing);
    assert W.Record(w.db, d, id, kind, valid, processing).1.Ok? <==> Records(WebhookCall(d));
  }

  lemma ProcessParsedAccounted(w: W.World, d: W.Delivery, event: ParsedEvent, payload: Option<Json>)
    requires Trim(d.provider) != ""
    ensures Accounted(w, W.ProcessParsed(w, d, event, payload).0, Records(WebhookCall(d)))
  {
    hide Trim, W.RecordOnly, W.RecordAndForward, W.ReconcileEvent, W.IsDuplicate, Records;
    RecordOnlyAccounted(w, d, event.eventId, event.eventType, "duplicate_lookup_failed", 500);
    RecordOnlyAccounted(w, d, event.eventId, event.eventType, "duplicate", 202);
    var (db, r) := W.ReconcileEvent(w.db, d, event, payload);
    ReconcileLeavesEvents(w.db, d, event, payload);
    RecordOnlyAccounted(w.(db := db), d, event.eventId, event.eventType, "reconcile_failed", 500);
    if r.Ok? {
      RecordAndForwardAccounted(w.(db := db), d, event.eventId, event.eventType, true, r.value);
    }
  }

  lemma ProcessAccounted(w: W.World, d: W.Delivery)
    ensures Accounted(w, W.Process(w, d).0, Records(WebhookCall(d)))
  {
    hide Trim, W.Record, W.ProcessParsed, W.RecordOnly, W.RecordAndForward;
    if Trim(d.provider) != "" {
      match d.handling
      case NoHandler => RecordAndForwardAccounted(w, d, "", "unknown", false, "received");
      case Rejected => RecordAdds(w.db, d, "", "verification_failed", false, "rejected");
      case Unparsed => RecordOnlyAccounted(w, d, "", "parse_error", "parse_failed", 202);
      case Parsed(event, payload) => ProcessParsedAccounted(w, d, event, payload);
    }
  }

  lemma InquiryLeavesEvents(db: Db, intent: Intent, provider: string, providerRef: string, env: P.Env)
    ensures P.RecordInquiry(db, intent, provider, providerRef, env).0.events == db.events
  {
  }

  lemma RefundLeavesEvents(db: Db, intent: Intent, input: P.RefundInput, providerRef: string, env: P.Env)
    ensures P.RecordRefundAnswer(db, intent, input, providerRef, env).0.events == db.events
  {
  }

  lemma CallAccounted(w: W.World, c: Call)
    ensures Accounted(w, Apply(w, c), Records(c))
  {
    hide Trim, W.Process, P.Create, P.Inquire, P.Refund;
    match c
    case WebhookCall(d) => ProcessAccounted(w, d);
    case CreateCall(input, env) => CreateEvents(w.db, input, env);
    case StatusCall(input, env) => InquiryEvents(w.db, input, env, false);
    case ReconcileCall(input, env) => InquiryEvents(w.db, input, env, true);
    case RefundCall(input, env) => RefundEvents(w.db, input, env);
  }

  lemma UpsertEvents(db: Db, id: Option<Id>, input: P.CreateInput, status: Status, now: int, execFails: bool,
                     reloadFails: bool)
    ensures P.CreateUpsert(db, id, input, status, now, execFails, reloadFails).0.events == db.events
  {
  }

  lemma AttemptEvents(db: Db, id: Id, input: P.CreateInput, env: P.Env)
    ensures P.CreateAttempt(db, id, input, env).0.events == db.events
  {
  }

  lemma CreateEvents(db: Db, input: P.CreateInput, env: P.Env)
    ensures P.Create(db, input, env).0.events == db.events
  {
    hide Trim, P.CreateUpsert, P.CreateAttempt;
    var (d1, r1) := P.CreateUpsert(db, None, input, Pending, env.now, PendingUpsert in env.faults,
                                   PendingReload in env.faults);
    UpsertEvents(db, None, input, Pending, env.now, PendingUpsert in env.faults, PendingReload in env.faults);
    if r1.Ok? {
      var (d2, r2) := P.CreateAttempt(d1, r1.value, input, env);
      AttemptEvents(d1, r1.value, input, env);
      UpsertEvents(d2, Some(r1.value), input, env.answer.status, env.now, FinalUpsert in env.faults,
                   FinalReload in env.faults);
    }
  }

  lemma InquiryEvents(db: Db, input: P.InquiryInput, env: P.Env, mustExist: bool)
    ensures P.Inquire(db, input, env, mustExist).0.events == db.events
  {
    hide Trim, P.RecordInquiry;
    var found := FindRef(db.intents, Trim(input.reference));
    if found.Some? {
      var intent := db.intents[found.value];
      var ref := P.ProviderReference(db, input.providerRef, input.reference, Some(intent.id), input.provider,
                                     env.prefer, LookupAttempt in env.faults);
      if ref.Ok? {
        InquiryLeavesEvents(db, intent, input.provider, ref.value, env);
      }
    }
  }

  lemma RefundEvents(db: Db, input: P.RefundInput, env: P.Env)
    ensures P.Refund(db, input, env).0.events == db.events
  {
    hide Trim, P.RecordRefundAnswer;
    var found := FindRef(db.intents, Trim(input.reference));
    if found.Some? {
      var intent := db.intents[found.value];
      var ref := P.ProviderReference(db, input.providerRef, intent.externalRef, Some(intent.id), input.provider,
                                     env.prefer, LookupAttempt in env.faults);
      if ref.Ok? {
        RefundLeavesEvents(db, intent, input, ref.value, env);
      }
    }
  }

  lemma NewEventAbove(w: W.World, after: W.World, s: W.Inbound)
    requires SentRecorded(w) && s in w.sent && IncreasingEvents(after.db.events)
    requires w.db.events <= after.db.events && |after.db.events| == |w.db.events| + 1
    ensures s.eventId < after.db.events[|w.db.events|].id
  {
    var e :| e in w.db.events && e.id == s.eventId && e.provider == s.provider;
    var j :| 0 <= j < |w.db.events| && w.db.events[j] == e;
    assert after.db.events[j] == e;
  }

  lemma SentRecordedStep(w: W.World, after: W.World, records: bool)
    requires Accounted(w, after, records) && SentRecorded(w) && IncreasingEvents(after.db.events)
    ensures SentRecorded(after)
  {
    if records && after.sent != w.sent {
      var e := after.db.events[|w.db.events|];
      assert e in after.db.events;
      forall i | 0 <= i < |w.sent| ensures w.sent[i].eventId < e.id {
        NewEventAbove(w, after, w.sent[i]);
      }
    }
    forall s | s in after.sent ensures exists e <- after.db.events :: e.id == s.eventId && e.provider == s.provider {
      if s in w.sent {
        var e :| e in w.db.events && e.id == s.eventId && e.provider == s.provider;
        assert e in after.db.events;
      }
    }
  }

  /** Conservation over runs: the event table grows by exactly the number of recording calls, whatever
      else fails; every hand-over names a stored event of its provider, and no event is handed over
      twice. */
  lemma {:induction false} RunAccounted(w: W.World, calls: seq<Call>)
    requires Consistent(w.db) && SentRecorded(w)
    ensures |Run(w, calls).db.events| == |w.db.events| + Recorded(calls)
    ensures SentRecorded(Run(w, calls))
    decreases |calls|
  {
    hide Apply, Records, SentRecorded, Grows, Linked, UniqueIntents, UniqueRefunds;
    if calls != [] {
      var next := Apply(w, calls[0]);
      ApplyKeeps(w, calls[0]);
      CallAccounted(w, calls[0]);
      SentRecordedStep(w, next, Records(calls[0]));
      RunAccounted(next, calls[1..]);
    }
  }

  /** An id with white space at its ends is not recognised again. No adapter prints one. */
  lemma PaddedIdNotRecognised(d: W.Delivery, event: ParsedEvent)
    requires InsertEvent !in d.faults && Trim(d.provider) == "xendit" && event.eventId == " e"
    ensures !W.IsDuplicate(W.Record(EMPTY, d, " e", event.eventType, true, "unmatched").0, "xendit", " e")
  {
    assert Trim(" e") == "e";
    RecognisedExactly(EMPTY, d, event, "unmatched");
  }

  // ---- Exactly when a delivery can take effect ----

  /** A delivery of the event whose row can be written. */
  predicate Stores(c: Call, provider: string, id: string) {
    Delivers(c, provider, id) && !Unrecorded(c)
  }

  /** At most one row more, of this provider and with this event id. */
  ghost predicate RowAdded(a: seq<Event>, b: seq<Event>, provider: string, id: string) {
    b == a || (|b| == |a| + 1 && a <= b && b[|a|].provider == provider && b[|a|].eventId == id)
  }

  lemma RecordRow(db: Db, d: W.Delivery, eventId: string, eventType: string, valid: bool, processing: string)
    ensures RowAdded(db.events, W.Record(db, d, eventId, eventType, valid, processing).0.events, Trim(d.provider),
                     eventId)
  {
    hide Trim;
  }

  /** The id a delivery is recorded under: the one its handler parsed, if it got that far. */
  function RecordedId(d: W.Delivery): string {
    if d.handling.Parsed? then d.handling.event.eventId else ""
  }

  /** The row a delivery adds, if it adds one, carries its provider and that id. */
  lemma ProcessRow(w: W.World, d: W.Delivery)
    ensures RowAdded(w.db.events, W.Process(w, d).0.db.events, Trim(d.provider), RecordedId(d))
  {
    hide Trim, W.Record, W.ReconcileEvent, W.IsDuplicate, RowAdded;
    NoRow(w.db.events, Trim(d.provider), RecordedId(d));
    match d.handling
    case NoHandler => RecordRow(w.db, d, "", "unknown", false, "received");
    case Rejected => RecordRow(w.db, d, "", "verification_failed", false, "rejected");
    case Unparsed => RecordRow(w.db, d, "", "parse_error", true, "parse_failed");
    case Parsed(event, payload) =>
      RecordRow(w.db, d, event.eventId, event.eventType, true, "duplicate_lookup_failed");
      RecordRow(w.db, d, event.eventId, event.eventType, true, "duplicate");
      var (db, r) := W.ReconcileEvent(w.db, d, event, payload);
      ReconcileLeavesEvents(w.db, d, event, payload);
      RecordRow(db, d, event.eventId, event.eventType, true, if r.Ok? then r.value else "reconcile_failed");
  }

  lemma NoRow(a: seq<Event>, provider: string, id: string)
    ensures RowAdded(a, a, provider, id)
  {
  }

  /** One call leaves the event stored exactly when it was stored before, or the call delivers it and
      can write its row. */
  lemma StoresExactly(w: W.World, c: Call, provider: string, id: string)
    requires id != ""
    ensures HasEvent(Apply(w, c).db, provider, id) <==> HasEvent(w.db, provider, id) || Stores(c, provider, id)
  {
    hide Trim, W.Process, P.Create, P.Inquire, P.Refund, HasEvent, Records;
    CallAccounted(w, c);
    RecordsExactly(c, provider, id);
    if c.WebhookCall? {
      ProcessRow(w, c.delivery);
    }
    RowKnows(w.db, Apply(w, c).db, provider, id);
  }

  /** With at most one row more, the event is newly known only if that row is its own. */
  lemma RowKnows(a: Db, b: Db, provider: string, id: string)
    requires b.events == a.events || (|b.events| == |a.events| + 1 && a.events <= b.events)
    ensures HasEvent(b, provider, id) <==>
              HasEvent(a, provider, id) ||
              (id != "" && |b.events| > |a.events| && b.events[|a.events|].provider == provider &&
               b.events[|a.events|].eventId == id)
  {
    if |b.events| > |a.events| {
      var row := b.events[|a.events|];
      assert b.events == a.events + [row];
      assert row in b.events && forall e <- b.events :: e in a.events || e == row;
      assert forall e <- a.events :: e in b.events;
    }
  }

  lemma RecordsExactly(c: Call, provider: string, id: string)
    ensures Delivers(c, provider, id) && !Unrecorded(c) ==> Records(c)
    ensures Records(c) ==> c.WebhookCall? && !Unrecorded(c)
  {
    assert "" !in PROVIDERS;
  }

  /** After any run the event is stored if and only if it was before, or some call of the run delivered
      it with a row that could be written. */
  lemma {:induction false} StoredExactly(w: W.World, calls: seq<Call>, provider: string, id: string)
    requires id != ""
    ensures HasEvent(Run(w, calls).db, provider, id) <==>
              HasEvent(w.db, provider, id) || exists c <- calls :: Stores(c, provider, id)
    decreases |calls|
  {
    hide HasEvent, Stores, Apply;
    if calls != [] {
      StoresExactly(w, calls[0], provider, id);
      StoredExactly(Apply(w, calls[0]), calls[1..], provider, id);
      assert forall c :: c in calls <==> c == calls[0] || c in calls[1..];
    }
  }

  /** Redelivery, exactly. After any run a delivery of the event is reconciled if and only if the
      duplicate lookup works and no earlier delivery could write its row (and the event was not stored
      before the run). So an event takes effect again precisely when all its deliveries so far went
      unrecorded. */
  lemma AttemptedExactly(w: W.World, calls: seq<Call>, d: W.Delivery, provider: string, id: string)
    requires Trim(id) == id && id != "" && provider != "" && Delivers(WebhookCall(d), provider, id)
    ensures RefundCoupling.Attempted(Run(w, calls).db, d).Some? <==>
              LookupEvent !in d.faults && !HasEvent(w.db, provider, id) && forall c <- calls :: !Stores(c, provider, id)
  {
    hide Trim, HasEvent, Stores;
    StoredExactly(w, calls, provider, id);
  }

  /** Whether a delivery of the event at this point of a run may take effect: the duplicate lookup works
      and no delivery before it stored the event. */
  predicate MayTakeEffect(c: Call, provider: string, id: string, stored: bool) {
    Delivers(c, provider, id) && LookupEvent !in c.delivery.faults && !stored
  }

  /** How many deliveries of a run may take effect; judged from the calls alone. */
  function Openings(calls: seq<Call>, provider: string, id: string, stored: bool): nat
    decreases |calls|
  {
    if calls == [] then 0
    else
      (if MayTakeEffect(calls[0], provider, id, stored) then 1 else 0) +
      Openings(calls[1..], provider, id, stored || Stores(calls[0], provider, id))
  }

  /** How many deliveries of a run are reconciled. */
  function Reconciled(w: W.World, calls: seq<Call>, provider: string, id: string): nat
    decreases |calls|
  {
    if calls == [] then 0
    else
      (if Delivers(calls[0], provider, id) && RefundCoupling.Attempted(w.db, calls[0].delivery).Some? then 1 else 0) +
      Reconciled(Apply(w, calls[0]), calls[1..], provider, id)
  }

  /** How many of the deliveries that may take effect change an intent or a refund. */
  function EffectiveOpenings(w: W.World, calls: seq<Call>, provider: string, id: string, stored: bool): nat
    decreases |calls|
  {
    if calls == [] then 0
    else
      (if MayTakeEffect(calls[0], provider, id, stored) && ChangesTables(w, calls[0]) then 1 else 0) +
      EffectiveOpenings(Apply(w, calls[0]), calls[1..], provider, id, stored || Stores(calls[0], provider, id))
  }

  lemma OneReconciled(w: W.World, c: Call, provider: string, id: string)
    requires Trim(id) == id && id != "" && provider != "" && Delivers(c, provider, id)
    ensures RefundCoupling.Attempted(w.db, c.delivery).Some? <==>
              MayTakeEffect(c, provider, id, HasEvent(w.db, provider, id))
    ensures ChangesTables(w, c) ==> RefundCoupling.Attempted(w.db, c.delivery).Some?
  {
    hide Trim, W.Process, HasEvent;
    RefundCoupling.ProcessTables(w, c.delivery);
  }

  /** How often an event takes effect, exactly. In any run the deliveries that are reconciled are those
      with a working lookup up to and including the first whose row can be written, and the deliveries
      that change intents or refunds are those of them that change anything at all. */
  lemma {:induction false} EffectsExactly(w: W.World, calls: seq<Call>, provider: string, id: string)
    requires Trim(id) == id && id != "" && provider != ""
    ensures Reconciled(w, calls, provider, id) == Openings(calls, provider, id, HasEvent(w.db, provider, id))
    ensures Effective(w, calls, provider, id) == EffectiveOpenings(w, calls, provider, id, HasEvent(w.db, provider, id))
    ensures Effective(w, calls, provider, id) <= Openings(calls, provider, id, HasEvent(w.db, provider, id))
    decreases |calls|
  {
    hide Trim, HasEvent, Stores, Apply, Delivers, ChangesTables, MayTakeEffect, RefundCoupling.Attempted;
    if calls != [] {
      StoresExactly(w, calls[0], provider, id);
      EffectsExactly(Apply(w, calls[0]), calls[1..], provider, id);
      if Delivers(calls[0], provider, id) {
        OneReconciled(w, calls[0], provider, id);
      } else {
        NotDelivered(calls[0], provider, id, HasEvent(w.db, provider, id));
      }
    }
  }

  lemma NotDelivered(c: Call, provider: string, id: string, stored: bool)
    requires !Delivers(c, provider, id)
    ensures !MayTakeEffect(c, provider, id, stored)
  {
  }

  // ---- Exactly what is forwarded ----

  /** What decides whether a delivery is handed to the forwarder. */
  predicate Forwardable(w: W.World, d: W.Delivery, provider: string, id: string)
    requires d.handling.Parsed?
  {
    d.forwards && LookupEvent !in d.faults && !HasEvent(w.db, provider, id) &&
    W.ReconcileEvent(w.db, d, d.handling.event, d.handling.payload).1.Ok?
  }

  /** A delivery is forwarded if and only if its row can be written, there is a forwarder, the lookup works,
      the event is not stored, and its reconciliation succeeds. */
  lemma ForwardsExactly(w: W.World, c: Call, provider: string, id: string)
    requires Trim(id) == id && id != "" && Delivers(c, provider, id)
    ensures Forwards(w, c) <==> !Unrecorded(c) && Forwardable(w, c.delivery, provider, id)
  {
    hide Trim, W.ReconcileEvent, W.Record, HasEvent;
    var d := c.delivery;
    var event := d.handling.event;
    RecordedIsFound(w.db, d, event, "duplicate_lookup_failed");
    RecordedIsFound(w.db, d, event, "duplicate");
    var (db, r) := W.ReconcileEvent(w.db, d, event, d.handling.payload);
    if r.Ok? {
      RecordedIsFound(db, d, event, r.value);
    }
    var sent := W.Process(w, d).0.sent;
    assert W.IsDuplicate(w.db, Trim(d.provider), event.eventId) <==> HasEvent(w.db, provider, id);
    if Trim(d.provider) == "" {
      assert "" !in PROVIDERS;
    } else if Forwardable(w, d, provider, id) {
      assert W.Record(db, d, event.eventId, event.eventType, true, r.value).1.Ok? <==> !Unrecorded(c);
      assert W.Process(w, d).0 == W.RecordAndForward(w.(db := db), d, event.eventId, event.eventType, true, r.value).0;
      assert !Unrecorded(c) ==> |sent| == |w.sent| + 1;
      assert Unrecorded(c) ==> sent == w.sent;
    } else {
      assert sent == w.sent;
    }
  }

  /** 1 if the first delivery of a run that stores the event is forwarded, else 0. */
  function FirstStoredForwards(w: W.World, calls: seq<Call>, provider: string, id: string): nat
    decreases |calls|
  {
    if calls == [] then 0
    else if Stores(calls[0], provider, id) then (if Forwardable(w, calls[0].delivery, provider, id) then 1 else 0)
    else FirstStoredForwards(Apply(w, calls[0]), calls[1..], provider, id)
  }

  /** What happens to an event is settled by the first delivery that stores it: that one is forwarded or
      none is, and nothing after it is forwarded or takes effect. So an event first stored as
      "duplicate_lookup_failed" or "reconcile_failed" is never forwarded. */
  lemma AfterStoring(w: W.World, c: Call, calls: seq<Call>, provider: string, id: string)
    requires Consistent(w.db) && Trim(id) == id && id != "" && Stores(c, provider, id)
    ensures Forwarded(Apply(w, c), calls, provider, id) == 0 && Effective(Apply(w, c), calls, provider, id) == 0
  {
    hide Consistent, Apply, HasEvent, Stores, Grows;
    ApplyKeeps(w, c);
    StoresExactly(w, c, provider, id);
    AtMostOnce(Apply(w, c), calls, provider, id);
  }

  lemma {:induction false} ForwardedExactly(w: W.World, calls: seq<Call>, provider: string, id: string)
    requires Consistent(w.db) && Trim(id) == id && id != ""
    ensures Forwarded(w, calls, provider, id) ==
            if HasEvent(w.db, provider, id) then 0 else FirstStoredForwards(w, calls, provider, id)
    decreases |calls|
  {
    hide Consistent, Apply, HasEvent, Forwards, Delivers, Forwardable, Grows, Trim, Unrecorded;
    AtMostOnce(w, calls, provider, id);
    if calls != [] && !HasEvent(w.db, provider, id) {
      ApplyKeeps(w, calls[0]);
      StoresExactly(w, calls[0], provider, id);
      if Delivers(calls[0], provider, id) {
        ForwardsExactly(w, calls[0], provider, id);
      }
      if Stores(calls[0], provider, id) {
        AfterStoring(w, calls[0], calls[1..], provider, id);
      } else {
        ForwardedExactly(Apply(w, calls[0]), calls[1..], provider, id);
      }
    }
  }

  /** Two Midtrans webhooks about different orders can print one id; the second is then dropped as a
      duplicate of the first. */
  lemma OtherOrderDropped(w: W.World, c: Call, eventType: string)
    requires Stores(c, "midtrans", EventIds.MidtransId(eventType, "a:b", "c"))
    ensures W.IsDuplicate(Apply(w, c).db, "midtrans", EventIds.MidtransId(eventType, "a", "b:c"))
  {
    hide Apply, HasEvent, Stores;
    var id := EventIds.MidtransId(eventType, "a", "b:c");
    EventIds.MidtransIdsCoincide(eventType);
    EventIds.MidtransIdTrimmed(eventType, "a", "b:c");
    StoresExactly(w, c, "midtrans", id);
  }

  // ---- An event that takes effect twice ----

  const PENDING_ROW := Intent(0, "r", "xendit", 100, "IDR", Pending, "{}", 1)

  const PENDING_WORLD := W.World(Db([PENDING_ROW], [], [], [], [], 1), [])

  const LOST_DELIVERY := W.Delivery(
    "xendit", W.Parsed(ParsedEvent("paid:p", "paid", "r", Paid), None), 2, 0, {InsertEvent}, true)

  const PENDING_AGAIN := P.Env(3, true, P.Answer(false, Pending, "", JNull, JNull), 0, {})

  const ASKED := StatusCall(P.InquiryInput("xendit", true, "r", "p"), PENDING_AGAIN)

  const REDELIVERY := LOST_DELIVERY.(now := 4, faults := {})

  /** With one pending intent and no events, the delivery marks the intent paid. */
  lemma DeliveryPays(w: W.World, row: Intent, d: W.Delivery)
    requires w.db.intents == [row] && row.(updatedAt := 1) == PENDING_ROW && w.db.events == []
    requires d == LOST_DELIVERY || d == REDELIVERY
    ensures ChangesTables(w, WebhookCall(d)) && Delivers(WebhookCall(d), "xendit", "paid:p")
    ensures var after := Apply(w, WebhookCall(d));
            after.db.intents == [row.(status := Paid, updatedAt := d.now)] &&
            (d == LOST_DELIVERY ==> after.db.events == [])
  {
    hide Trim, IsRefundEvent;
    RefundCoupling.LiteralTexts();
    assert row.externalRef == row.(updatedAt := 1).externalRef && row.provider == row.(updatedAt := 1).provider;
    assert row.status == row.(updatedAt := 1).status && row.id == row.(updatedAt := 1).id;
    assert FindRef([row], "r") == Some(0);
    assert [row][0 := row.(status := Paid, updatedAt := d.now)] == [row.(status := Paid, updatedAt := d.now)];
  }

  /** The provider answers pending, and the inquiry takes the paid status back. */
  lemma InquiryTakesBack(w: W.World, row: Intent)
    requires w.db.intents == [row] && row.(updatedAt := 1) == PENDING_ROW.(status := Paid)
    ensures Apply(w, ASKED).db.intents == [row.(status := Pending, updatedAt := 3)]
    ensures Apply(w, ASKED).db.events == w.db.events
    ensures !Delivers(ASKED, "xendit", "paid:p")
  {
    hide Trim;
    RefundCoupling.LiteralTexts();
    assert row.externalRef == row.(updatedAt := 1).externalRef && row.provider == row.(updatedAt := 1).provider;
    assert row.status == row.(updatedAt := 1).status && row.id == row.(updatedAt := 1).id;
    assert FindRef([row], "r") == Some(0) && FindId([row], row.id) == Some(0);
    assert [row][0 := row.(status := Pending, updatedAt := 3)] == [row.(status := Pending, updatedAt := 3)];
  }

  /** The condition is needed: a payment webhook whose event row is lost takes effect, an inquiry brings
      the old status back, and the redelivered webhook takes effect again. */
  lemma LostRowTakesEffectTwice()
    ensures Effective(PENDING_WORLD, [WebhookCall(LOST_DELIVERY), ASKED, WebhookCall(REDELIVERY)], "xendit",
                      "paid:p") == 2
  {
    hide Apply, Delivers, ChangesTables;
    var calls := [WebhookCall(LOST_DELIVERY), ASKED, WebhookCall(REDELIVERY)];
    DeliveryPays(PENDING_WORLD, PENDING_ROW, LOST_DELIVERY);
    var w1 := Apply(PENDING_WORLD, calls[0]);
    InquiryTakesBack(w1, PENDING_ROW.(status := Paid, updatedAt := 2));
    var w2 := Apply(w1, calls[1]);
    DeliveryPays(w2, PENDING_ROW.(updatedAt := 3), REDELIVERY);
    assert calls[1..] == [ASKED, WebhookCall(REDELIVERY)] && calls[1..][1..] == [WebhookCall(REDELIVERY)];
    assert calls[1..][1..][1..] == [];
    assert Effective(Apply(w2, calls[2]), [], "xendit", "paid:p") == 0;
    assert Effective(w2, calls[1..][1..], "xendit", "paid:p") == 1;
    assert Effective(w1, calls[1..], "xendit", "paid:p") == 1;
  }

  /** From an empty database: as many event rows as recording deliveries, and every hand-over accounted for. */
  lemma ReachableAccounted(calls: seq<Call>)
    ensures |Run(W.World(EMPTY, []), calls).db.events| == Recorded(calls)
    ensures SentRecorded(Run(W.World(EMPTY, []), calls))
  {
    hide Apply, Records, Consistent;
    EmptyConsistent();
    RunAccounted(W.World(EMPTY, []), calls);
  }

  // ---- A refund webhook reaches its refund ----

  /** Refund k is newer than every other refund the identifiers find for the provider. */
  ghost predicate NewerThanOthers(db: Db, provider: string, identifiers: seq<string>, k: nat)
    requires k < |db.refunds|
  {
    var finds := RefundQuery.Finder(provider, identifiers);
    forall j | 0 <= j < |db.refunds| && j != k && finds(db.refunds[j]) ::
      db.refunds[j].createdAt < db.refunds[k].createdAt
  }

  lemma IdentifiersAreClean(paymentRef: string, id: string)
    ensures EventIds.CleanParts(EventIds.Identifiers(paymentRef, id)) == EventIds.Identifiers(paymentRef, id)
  {
    var ids := EventIds.Identifiers(paymentRef, id);
    EventIds.IdentifiersTrimmed(paymentRef, id);
    forall i | 0 <= i < |ids| ensures ids[i] != "" && Trimmed(ids[i]) {
      assert ids[i] in ids;
    }
    EventIds.CleanIsClean(ids);
  }

  lemma ReconcilesTheRefund(db: Db, d: W.Delivery, event: ParsedEvent, payload: Option<Json>, k: nat)
    requires Consistent(db) && d.faults == {} && event.status != Unset
    requires k < |db.refunds|
    requires var ids := EventIds.Identifiers(event.paymentRef, event.eventId);
             RefundQuery.Finder(Trim(d.provider), ids)(db.refunds[k]) && NewerThanOthers(db, Trim(d.provider), ids, k)
    ensures var (after, r) := W.ReconcileRefund(db, d, event, payload);
            r == Ok("reconciled") && RowSettled(db, after, k, event.status, payload, d.now)
  {
    hide Consistent, RowSettled, EventIds.Identifiers, EventIds.CleanParts, RefundQuery.SettleLatest,
         RefundQuery.Matches, Trim;
    var ids := EventIds.Identifiers(event.paymentRef, event.eventId);
    IdentifiersAreClean(event.paymentRef, event.eventId);
    ReconcileExact(db, Trim(d.provider), ids, event.status, payload, d.now, d.prefer, d.faults);
    var finds := RefundQuery.Finder(Trim(d.provider), ids);
    assert db.refunds[k] in db.refunds && finds(db.refunds[k]);
    if ids == [] {
      NothingMatches(db.refunds[k]);
    }
    var (after, r) := RefundQuery.Reconcile(db, Trim(d.provider), ids, event.status, payload, d.now, d.prefer,
                                            d.faults);
    var j: nat :| Picked(db, finds, j) && RowSettled(db, after, j, event.status, payload, d.now);
    assert j == k;
  }

  lemma NothingMatches(row: Refund)
    ensures !RefundQuery.Matches(row, [])
  {
  }

  /** The refund's stored request, response or provider reference holds the id of a provider object. */
  predicate StoresObjectId(row: Refund, field: RefundQuery.Field, objectId: string) {
    row.provider == "xendit" && objectId != "" && field in RefundQuery.FIELDS &&
    RefundQuery.FieldValue(row, field) == Some(objectId)
  }

  /** Settling a refund keeps an object id it stores exactly when the id is not in the response, or no
      response was sent, or the new response holds the id in the same place. */
  lemma SettledStores(row: Refund, status: Status, response: Option<Json>, now: int, field: RefundQuery.Field,
                      objectId: string)
    requires StoresObjectId(row, field, objectId)
    ensures StoresObjectId(RefundQuery.Settle(row, status, response, now), field, objectId) <==>
              ResponseKeeps(response, field, objectId)
  {
    hide RefundQuery.Extract;
  }

  predicate ResponseKeeps(response: Option<Json>, field: RefundQuery.Field, objectId: string) {
    field.InResponse? ==> response.None? || RefundQuery.Extract(response.value, field.path) == Some(objectId)
  }

  /** The object's id can be read back from the event: its type has no colon, or its reference is the id. */
  predicate Readable(event: ParsedEvent, objectId: string) {
    ':' !in event.eventType || event.paymentRef == objectId
  }

  /** The object id of the webhook, when it can be read back, is one of the identifiers, so a refund that
      stores it is found. */
  lemma ObjectIdFindsRefund(ops: X.Ops, body: Fields, event: ParsedEvent, objectId: string, row: Refund,
                            field: RefundQuery.Field)
    requires X.MayParse(ops, body, event, objectId) && Readable(event, objectId) && StoresObjectId(row, field, objectId)
    ensures RefundQuery.Finder("xendit", EventIds.Identifiers(event.paymentRef, event.eventId))(row)
  {
    hide X.MayParse, EventIds.Identifiers, RefundQuery.FieldValue;
    X.ParsedRefundIdentifiers(ops, body, event, objectId);
  }

  /** A verified Xendit delivery of an event that its body parses to, about the object with this id,
      which is a refund event with some status, whose object id can be read back, and not seen before. */
  ghost predicate FreshRefundDelivery(w: W.World, ops: X.Ops, body: Fields, d: W.Delivery, payload: Option<Json>,
                                      event: ParsedEvent, objectId: string) {
    && d.faults == {} && Trim(d.provider) == "xendit"
    && X.MayParse(ops, body, event, objectId) && d.handling == W.Parsed(event, payload)
    && IsRefundEvent(event.eventType) && event.status != Unset && Readable(event, objectId)
    && !W.IsDuplicate(w.db, "xendit", event.eventId)
  }

  /** Processing the delivery settles exactly refund k and its intent, records the event as reconciled,
      and hands it to the forwarder under its new row. */
  ghost predicate SettledBy(w: W.World, d: W.Delivery, payload: Option<Json>, event: ParsedEvent, k: nat) {
    var after := W.Process(w, d).0;
    && RowSettled(w.db, after.db.(events := w.db.events, nextId := w.db.nextId), k, event.status, payload, d.now)
    && after.db.events == w.db.events +
         [Event(w.db.nextId, "xendit", event.eventId, event.eventType, true, "reconciled", d.now)]
    && after.sent == w.sent + (if d.forwards then [W.Inbound(w.db.nextId, "xendit")] else [])
  }

  lemma FoundIsSettled(w: W.World, ops: X.Ops, body: Fields, d: W.Delivery, payload: Option<Json>,
                       event: ParsedEvent, objectId: string, k: nat)
    requires Consistent(w.db) && FreshRefundDelivery(w, ops, body, d, payload, event, objectId)
    requires k < |w.db.refunds|
    requires var ids := EventIds.Identifiers(event.paymentRef, event.eventId);
             RefundQuery.Finder("xendit", ids)(w.db.refunds[k]) && NewerThanOthers(w.db, "xendit", ids, k)
    ensures SettledBy(w, d, payload, event, k)
  {
    hide Consistent, RowSettled, NewerThanOthers, X.MayParse, EventIds.Identifiers, IsRefundEvent, W.IsDuplicate,
         W.ReconcileRefund, RefundQuery.Finder;
    ReconcilesTheRefund(w.db, d, event, payload, k);
    SettledFrame(w.db, W.ReconcileRefund(w.db, d, event, payload).0, k, event.status, payload, d.now);
    X.ParsedTypeSet(ops, body, event, objectId);
  }

  /** From body to tables. Take a Xendit refund that stores the id of a provider object, newer than every
      other refund the webhook's identifiers find. A fresh refund webhook about that object, whatever
      order its keys are read in, settles exactly that refund and its intent. */
  lemma XenditRefundEndToEnd(w: W.World, ops: X.Ops, body: Fields, d: W.Delivery, payload: Option<Json>,
                             event: ParsedEvent, objectId: string, k: nat, field: RefundQuery.Field)
    requires Consistent(w.db) && FreshRefundDelivery(w, ops, body, d, payload, event, objectId)
    requires k < |w.db.refunds| && StoresObjectId(w.db.refunds[k], field, objectId)
    requires NewerThanOthers(w.db, "xendit", EventIds.Identifiers(event.paymentRef, event.eventId), k)
    ensures SettledBy(w, d, payload, event, k)
  {
    hide Consistent, NewerThanOthers, StoresObjectId, SettledBy, X.MayParse, EventIds.Identifiers, IsRefundEvent,
         W.IsDuplicate, RefundQuery.Finder, Readable;
    ObjectIdFindsRefund(ops, body, event, objectId, w.db.refunds[k], field);
    FoundIsSettled(w, ops, body, d, payload, event, objectId, k);
  }

  /** A stored refund still holds the object id after any run, unless it was in a response that has been
      replaced by one without it. */
  lemma StillStores(a: Db, b: Db, k: nat, field: RefundQuery.Field, objectId: string)
    requires Grows(a, b) && k < |a.refunds| && StoresObjectId(a.refunds[k], field, objectId)
    ensures k < |b.refunds|
    ensures StoresObjectId(b.refunds[k], field, objectId) <==>
              ResponseKeeps(Some(b.refunds[k].response), field, objectId)
  {
    hide RefundQuery.Extract;
    var x, y := a.refunds[k], b.refunds[k];
    assert y.(status := x.status, response := x.response, updatedAt := x.updatedAt).provider == y.provider;
    assert y.(status := x.status, response := x.response, updatedAt := x.updatedAt).request == y.request;
    assert y.(status := x.status, response := x.response, updatedAt := x.updatedAt).providerRef == y.providerRef;
  }

  /** From refund call to webhook. A Refund call stores a Xendit refund holding the id of a provider
      object; then anything happens, as long as no newer refund that the webhook's identifiers find is
      stored and a response holding the id is not replaced by one without it. The fresh refund webhook about that object
      settles exactly the refund the call made. */
  lemma RefundThenWebhook(w: W.World, input: P.RefundInput, env: P.Env, calls: seq<Call>, ops: X.Ops, body: Fields,
                          d: W.Delivery, payload: Option<Json>, event: ParsedEvent, objectId: string,
                          field: RefundQuery.Field)
    requires Consistent(w.db)
    requires var made := P.Refund(w.db, input, env).0.refunds;
             |w.db.refunds| < |made| && StoresObjectId(made[|w.db.refunds|], field, objectId)
    requires var end := Run(w, [RefundCall(input, env)] + calls);
             && FreshRefundDelivery(end, ops, body, d, payload, event, objectId)
             && |w.db.refunds| < |end.db.refunds|
             && NewerThanOthers(end.db, "xendit", EventIds.Identifiers(event.paymentRef, event.eventId), |w.db.refunds|)
             && ResponseKeeps(Some(end.db.refunds[|w.db.refunds|].response), field, objectId)
    ensures SettledBy(Run(w, [RefundCall(input, env)] + calls), d, payload, event, |w.db.refunds|)
  {
    hide Consistent, Grows, FreshRefundDelivery, NewerThanOthers, StoresObjectId, ResponseKeeps, SettledBy, P.Refund,
         EventIds.Identifiers;
    var all := [RefundCall(input, env)] + calls;
    var mid := Apply(w, all[0]);
    assert all[1..] == calls;
    ApplyKeeps(w, all[0]);
    RunKeeps(mid, calls);
    StillStores(mid.db, Run(mid, calls).db, |w.db.refunds|, field, objectId);
    XenditRefundEndToEnd(Run(mid, calls), ops, body, d, payload, event, objectId, |w.db.refunds|, field);
  }

  /** The identifiers read from a Xendit event find the refund. */
  predicate Finds(event: ParsedEvent, row: Refund) {
    RefundQuery.Finder("xendit", EventIds.Identifiers(event.paymentRef, event.eventId))(row)
  }

  /** Processing the delivery leaves refund k as it is. */
  ghost predicate Untouched(w: W.World, d: W.Delivery, k: nat) {
    var after := W.Process(w, d).0.db.refunds;
    k < |w.db.refunds| && k < |after| && after[k] == w.db.refunds[k]
  }

  /** A refund the identifiers do not find is left as it is. */
  lemma NotFoundUntouched(w: W.World, d: W.Delivery, payload: Option<Json>, event: ParsedEvent, k: nat)
    requires Consistent(w.db) && k < |w.db.refunds| && d.handling == W.Parsed(event, payload)
    requires IsRefundEvent(event.eventType)
    requires var ids := EventIds.Identifiers(event.paymentRef, event.eventId);
             !RefundQuery.Finder(Trim(d.provider), ids)(w.db.refunds[k])
    ensures Untouched(w, d, k)
  {
    hide Consistent, EventIds.Identifiers, EventIds.CleanParts, RefundQuery.Reconcile, RefundQuery.Matches, Trim,
         IsRefundEvent, W.Process, W.IsDuplicate, ReconcileFaults;
    RefundCoupling.ProcessTables(w, d);
    var ids := EventIds.Identifiers(event.paymentRef, event.eventId);
    IdentifiersAreClean(event.paymentRef, event.eventId);
    ReconcileExact(w.db, Trim(d.provider), ids, event.status, payload, d.now, d.prefer, d.faults);
  }

  /** Two webhooks about one refund. The first settles the refund and replaces its response if it sends one.
      The second settles it too if its identifiers still find it, as they do when the id is not in the
      response or the first webhook's payload holds it there; if they do not, the refund stays as the
      first left it. */
  lemma SecondWebhook(w: W.World, mid: W.World, ops: X.Ops, k: nat, field: RefundQuery.Field, objectId: string,
                      body1: Fields, d1: W.Delivery, payload1: Option<Json>, event1: ParsedEvent,
                      body2: Fields, d2: W.Delivery, payload2: Option<Json>, event2: ParsedEvent)
    requires Consistent(w.db) && k < |w.db.refunds| && StoresObjectId(w.db.refunds[k], field, objectId)
    requires FreshRefundDelivery(w, ops, body1, d1, payload1, event1, objectId)
    requires NewerThanOthers(w.db, "xendit", EventIds.Identifiers(event1.paymentRef, event1.eventId), k)
    requires mid == W.Process(w, d1).0 && FreshRefundDelivery(mid, ops, body2, d2, payload2, event2, objectId)
    requires k < |mid.db.refunds|
    requires NewerThanOthers(mid.db, "xendit", EventIds.Identifiers(event2.paymentRef, event2.eventId), k)
    ensures SettledBy(w, d1, payload1, event1, k)
    ensures ResponseKeeps(payload1, field, objectId) ==> Finds(event2, mid.db.refunds[k])
    ensures Finds(event2, mid.db.refunds[k]) ==> SettledBy(mid, d2, payload2, event2, k)
    ensures !Finds(event2, mid.db.refunds[k]) ==> Untouched(mid, d2, k)
  {
    hide Consistent, Grows, X.MayParse, NewerThanOthers, StoresObjectId, ResponseKeeps, EventIds.Identifiers, W.Process,
         W.IsDuplicate, IsRefundEvent, RefundQuery.Settle, Trim, Readable, SettledBy, Untouched, RowSettled;
    XenditRefundEndToEnd(w, ops, body1, d1, payload1, event1, objectId, k, field);
    SettledRow(w, mid, d1, payload1, event1, k);
    ProcessKeeps(w, d1);
    SettledStores(w.db.refunds[k], event1.status, payload1, d1.now, field, objectId);
    if ResponseKeeps(payload1, field, objectId) {
      ObjectIdFindsRefund(ops, body2, event2, objectId, mid.db.refunds[k], field);
    }
    if Finds(event2, mid.db.refunds[k]) {
      FoundIsSettled(mid, ops, body2, d2, payload2, event2, objectId, k);
    } else {
      NotFoundUntouched(mid, d2, payload2, event2, k);
    }
  }

  lemma SettledRow(w: W.World, mid: W.World, d: W.Delivery, payload: Option<Json>, event: ParsedEvent, k: nat)
    requires SettledBy(w, d, payload, event, k) && mid == W.Process(w, d).0
    ensures k < |w.db.refunds| == |mid.db.refunds|
    ensures mid.db.refunds[k] == RefundQuery.Settle(w.db.refunds[k], event.status, payload, d.now)
  {
    hide W.Process, Marked, RefundQuery.Settle;
  }

  // ---- A refund that a webhook makes unfindable ----

  /** Xendit's answer to a refund request holds the refund's id under "id". */
  const ANSWERED := Refund(1, 0, "xendit", 5, Pending, JNull, JObject(map["id" := JString("rfd-1")]), "", 1, 1)

  const PENDING_BODY := JObject(map["event" := JString("refund.pending"),
                                    "data" := JObject(map["refund_id" := JString("rfd-1")])])

  /** The condition is needed: a first webhook that names the refund only as "refund_id" replaces the
      response, and the id then finds the refund no more. */
  lemma ReplacedResponseLosesRefund()
    ensures RefundQuery.Matches(ANSWERED, ["rfd-1"])
    ensures !RefundQuery.Matches(RefundQuery.Settle(ANSWERED, Pending, Some(PENDING_BODY), 2), ["rfd-1"])
  {
    var found := RefundQuery.InResponse(["id"]);
    assert found in RefundQuery.FIELDS by {
      assert RefundQuery.FIELDS[8] == found;
    }
    assert ["id"][1..] == [];
    assert RefundQuery.FieldValue(ANSWERED, found) == Some("rfd-1");
    var row := RefundQuery.Settle(ANSWERED, Pending, Some(PENDING_BODY), 2);
    forall f | f in RefundQuery.FIELDS ensures RefundQuery.FieldValue(row, f).None? {
      NothingInPending(row, f);
    }
  }

  lemma NothingInPending(row: Refund, f: RefundQuery.Field)
    requires f in RefundQuery.FIELDS && row.request == JNull && row.response == PENDING_BODY && row.providerRef == ""
    ensures RefundQuery.FieldValue(row, f).None?
  {
    if f.InResponse? {
      assert f.path[0] != "data" ==> f.path[0] !in PENDING_BODY.fields;
      assert f.path[0] == "data" ==> |f.path| == 2 && f.path[1..][0] == f.path[1] != "refund_id";
    }
  }

  lemma SettledFrame(db: Db, after: Db, k: nat, status: Status, response: Option<Json>, now: int)
    requires RowSettled(db, after, k, status, response, now)
    ensures after == db.(intents := after.intents, refunds := after.refunds)
  {
  }
}
