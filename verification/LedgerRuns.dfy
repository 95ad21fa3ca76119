/** Runs: any sequence of payment-service calls and webhook deliveries, one at a time, over one
    database. Providers may answer anything and any store operation may fail. */
module LedgerRuns {
  import opened Text
  import opened Json
  import opened Ledger
  import opened LedgerInvariants
  import EventIds
  import RefundQuery
  import P = Payments
  import W = Webhooks

  datatype Call =
    | CreateCall(create: P.CreateInput, env: P.Env)
    | StatusCall(inquiry: P.InquiryInput, env: P.Env)
    | ReconcileCall(inquiry: P.InquiryInput, env: P.Env)
    | RefundCall(refund: P.RefundInput, env: P.Env)
    | WebhookCall(delivery: W.Delivery)

  function Apply(w: W.World, c: Call): W.World {
    match c
    case CreateCall(input, env) => w.(db := P.Create(w.db, input, env).0)
    case StatusCall(input, env) => w.(db := P.Inquire(w.db, input, env, false).0)
    case ReconcileCall(input, env) => w.(db := P.Inquire(w.db, input, env, true).0)
    case RefundCall(input, env) => w.(db := P.Refund(w.db, input, env).0)
    case WebhookCall(d) => W.Process(w, d).0
  }

  function Run(w: W.World, calls: seq<Call>): W.World
    decreases |calls|
  {
    if calls == [] then w else Run(Apply(w, calls[0]), calls[1..])
  }

  // ---- Every call keeps the database consistent ----

  lemma CreateKeeps(db: Db, input: P.CreateInput, env: P.Env)
    requires Consistent(db)
    ensures Kept(db, P.Create(db, input, env).0)
  {
    hide Consistent, Grows, RowWritten, TryUpsert, AddAttempt, AddCheck, AddRefund, AddEvent, Trim;
    KeptReflexive(db);
    if P.CreateAccepted(input) && env.adapter {
      var (d1, r1) := P.CreateUpsert(db, None, input, Pending, env.now, PendingUpsert in env.faults,
                                     PendingReload in env.faults);
      TryUpsertKeeps(db, None, Trim(input.externalRef), input.provider, input.amount, input.currency, Pending,
                     input.metadata, env.now, PendingUpsert in env.faults, PendingReload in env.faults);
      if r1.Ok? {
        var (d2, r2) := P.CreateAttempt(d1, r1.value, input, env);
        CreateAttemptKeeps(d1, r1.value, input, env);
        KeptTransitive(db, d1, d2);
        var d3 := P.CreateUpsert(d2, Some(r1.value), input, env.answer.status, env.now,
                                 FinalUpsert in env.faults, FinalReload in env.faults).0;
        TryUpsertKeeps(d2, Some(r1.value), Trim(input.externalRef), input.provider, input.amount, input.currency,
                       env.answer.status, input.metadata, env.now, FinalUpsert in env.faults,
                       FinalReload in env.faults);
        KeptTransitive(db, d2, d3);
      }
    }
  }

  lemma CreateAttemptKeeps(db: Db, id: Id, input: P.CreateInput, env: P.Env)
    requires Consistent(db)
    ensures var after := P.CreateAttempt(db, id, input, env).0;
            Kept(db, after) && after == db.(attempts := after.attempts, nextId := after.nextId)
  {
    hide Consistent, Grows, RowWritten, TryUpsert, AddAttempt, AddCheck, AddRefund, AddEvent, Trim;
    KeptReflexive(db);
    AddAttemptKeeps(db, id, input.provider, Failed, "", env.now);
    AddAttemptKeeps(db, id, input.provider, env.answer.status, env.answer.providerRef, env.now);
  }

  lemma SetStatusKeeps(db: Db, intent: Intent, status: Status, now: int, execFails: bool, reloadFails: bool)
    requires Consistent(db)
    ensures var after := SetStatus(db, intent, status, now, execFails, reloadFails).0;
            && Kept(db, after) && after == db.(intents := after.intents, nextId := after.nextId)
            && (after == db || RowWritten(db.intents, after.intents, intent.externalRef, status))
  {
    hide Consistent, Grows, RowWritten, TryUpsert, AddAttempt, AddCheck, AddRefund, AddEvent, Trim;
    TryUpsertKeeps(db, Some(intent.id), intent.externalRef, intent.provider, intent.amount, intent.currency,
                   status, intent.metadata, now, execFails, reloadFails);
  }

  lemma RecordInquiryKeeps(db: Db, intent: Intent, provider: string, providerRef: string, env: P.Env)
    requires Consistent(db)
    ensures Kept(db, P.RecordInquiry(db, intent, provider, providerRef, env).0)
  {
    hide Consistent, Grows, RowWritten, TryUpsert, AddAttempt, AddCheck, AddRefund, AddEvent, Trim;
    KeptReflexive(db);
    AddCheckKeeps(db, intent.id, provider, env.answer.status, providerRef, env.now);
    var (next, changed) := P.StatusUpdate(intent.status, env.answer.status);
    if changed {
      SetStatusKeeps(db, intent, next, env.now, FinalUpsert in env.faults, FinalReload in env.faults);
      var d1 := SetStatus(db, intent, next, env.now, FinalUpsert in env.faults, FinalReload in env.faults).0;
      AddCheckKeeps(d1, intent.id, provider, env.answer.status, providerRef, env.now);
      var d2 := P.InquiryCheck(d1, intent, provider, providerRef, env).0;
      KeptReflexive(d1);
      KeptTransitive(db, d1, d2);
    }
  }

  lemma InquireKeeps(db: Db, input: P.InquiryInput, env: P.Env, mustExist: bool)
    requires Consistent(db)
    ensures Kept(db, P.Inquire(db, input, env, mustExist).0)
  {
    hide Consistent, Grows, RowWritten, TryUpsert, AddAttempt, AddCheck, AddRefund, AddEvent, Trim;
    KeptReflexive(db);
    var found := FindRef(db.intents, Trim(input.reference));
    if found.Some? {
      var intent := db.intents[found.value];
      var ref := P.ProviderReference(db, input.providerRef, input.reference, Some(intent.id), input.provider,
                                     env.prefer, LookupAttempt in env.faults);
      if ref.Ok? {
        RecordInquiryKeeps(db, intent, input.provider, ref.value, env);
      }
    }
  }

  lemma RecordRefundAnswerKeeps(db: Db, intent: Intent, input: P.RefundInput, providerRef: string, env: P.Env)
    requires Consistent(db)
    ensures Kept(db, P.RecordRefundAnswer(db, intent, input, providerRef, env).0)
  {
    hide Consistent, Grows, RowWritten, TryUpsert, AddAttempt, AddCheck, AddRefund, AddEvent, Trim;
    KeptReflexive(db);
    var answer := env.answer;
    var stored := if Trim(answer.providerRef) != "" then Trim(answer.providerRef) else providerRef;
    var amount := if input.amount == 0 then intent.amount else input.amount;
    if InsertRefund !in env.faults {
      AddRefundKeeps(db, intent.id, input.provider, amount, P.RefundRowStatus(answer), answer.request,
                     answer.response, stored, env.now);
      var d1 := AddRefund(db, intent.id, input.provider, amount, P.RefundRowStatus(answer), answer.request,
                          answer.response, stored, env.now).0;
      SetStatusKeeps(d1, intent, answer.status, env.now, FinalUpsert in env.faults, FinalReload in env.faults);
      var d2 := SetStatus(d1, intent, answer.status, env.now, FinalUpsert in env.faults, FinalReload in env.faults).0;
      KeptTransitive(db, d1, d2);
    }
  }

  lemma RefundKeeps(db: Db, input: P.RefundInput, env: P.Env)
    requires Consistent(db)
    ensures Kept(db, P.Refund(db, input, env).0)
  {
    hide Consistent, Grows, RowWritten, TryUpsert, AddAttempt, AddCheck, AddRefund, AddEvent, Trim;
    KeptReflexive(db);
    var found := FindRef(db.intents, Trim(input.reference));
    if found.Some? {
      var intent := db.intents[found.value];
      var ref := P.ProviderReference(db, input.providerRef, intent.externalRef, Some(intent.id), input.provider,
                                     env.prefer, LookupAttempt in env.faults);
      if ref.Ok? {
        RecordRefundAnswerKeeps(db, intent, input, ref.value, env);
      }
    }
  }

  lemma RecordKeeps(db: Db, d: W.Delivery, eventId: string, eventType: string, valid: bool, processing: string)
    requires Consistent(db)
    ensures var after := W.Record(db, d, eventId, eventType, valid, processing).0;
            Kept(db, after) && after == db.(events := after.events, nextId := after.nextId)
  {
    hide Consistent, Grows, RowWritten, TryUpsert, AddAttempt, AddCheck, AddRefund, AddEvent, Trim;
    KeptReflexive(db);
    AddEventKeeps(db, Trim(d.provider), eventId, eventType, valid, processing, d.now);
  }

  lemma ReconcileEventKeeps(db: Db, d: W.Delivery, event: ParsedEvent, payload: Option<Json>)
    requires Consistent(db)
    ensures var after := W.ReconcileEvent(db, d, event, payload).0;
            Kept(db, after) && after == db.(intents := after.intents, refunds := after.refunds, nextId := after.nextId)
  {
    hide Consistent, Grows, RowWritten, TryUpsert, AddAttempt, AddCheck, AddRefund, AddEvent, Trim;
    KeptReflexive(db);
    if IsRefundEvent(event.eventType) {
      ReconcileRefundKeeps(db, d, event, payload);
    } else {
      var found := FindRef(db.intents, Trim(event.paymentRef));
      if found.Some? {
        SetStatusKeeps(db, db.intents[found.value], event.status, d.now, FinalUpsert in d.faults,
                       FinalReload in d.faults);
      }
    }
  }

  lemma ReconcileRefundKeeps(db: Db, d: W.Delivery, event: ParsedEvent, payload: Option<Json>)
    requires Consistent(db)
    ensures var after := W.ReconcileRefund(db, d, event, payload).0;
            Kept(db, after) && after == db.(intents := after.intents, refunds := after.refunds)
  {
    hide Consistent, Grows, RowWritten, TryUpsert, AddAttempt, AddCheck, AddRefund, AddEvent, Trim;
    KeptReflexive(db);
    var ids := EventIds.Identifiers(event.paymentRef, event.eventId);
    var usable := EventIds.CleanParts(ids);
    ReconcileExact(db, Trim(d.provider), ids, event.status, payload, d.now, d.prefer, d.faults);
    if usable != [] {
      var (after, r) := RefundQuery.Reconcile(db, Trim(d.provider), ids, event.status, payload, d.now, d.prefer,
                                              d.faults);
      ExactKeeps(db, RefundQuery.Finder(Trim(d.provider), usable), event.status, payload, d.now, d.faults, after, r);
    }
  }

  lemma ProcessKeeps(w: W.World, d: W.Delivery)
    requires Consistent(w.db)
    ensures Kept(w.db, W.Process(w, d).0.db)
  {
    hide Consistent, Grows, RowWritten, TryUpsert, AddAttempt, AddCheck, AddRefund, AddEvent, Trim;
    KeptReflexive(w.db);
    match d.handling
    case NoHandler => RecordKeeps(w.db, d, "", "unknown", false, "received");
    case Rejected => RecordKeeps(w.db, d, "", "verification_failed", false, "rejected");
    case Unparsed => RecordKeeps(w.db, d, "", "parse_error", true, "parse_failed");
    case Parsed(event, payload) =>
      RecordKeeps(w.db, d, event.eventId, event.eventType, true, "duplicate_lookup_failed");
      RecordKeeps(w.db, d, event.eventId, event.eventType, true, "duplicate");
      var (db, r) := W.ReconcileEvent(w.db, d, event, payload);
      ReconcileEventKeeps(w.db, d, event, payload);
      var processing := if r.Ok? then r.value else "reconcile_failed";
      RecordKeeps(db, d, event.eventId, event.eventType, true, processing);
      KeptTransitive(w.db, db, W.Record(db, d, event.eventId, event.eventType, true, processing).0);
  }

  lemma ApplyKeeps(w: W.World, c: Call)
    requires Consistent(w.db)
    ensures Kept(w.db, Apply(w, c).db)
  {
    hide Consistent, Grows, RowWritten, TryUpsert, AddAttempt, AddCheck, AddRefund, AddEvent, Trim;
    match c
    case CreateCall(input, env) => CreateKeeps(w.db, input, env);
    case StatusCall(input, env) => InquireKeeps(w.db, input, env, false);
    case ReconcileCall(input, env) => InquireKeeps(w.db, input, env, true);
    case RefundCall(input, env) => RefundKeeps(w.db, input, env);
    case WebhookCall(d) => ProcessKeeps(w, d);
  }

  /** Identity and references over whole runs, whatever providers answer and whatever fails: ids and
      external references of intents stay in one-to-one correspondence and never change, every
      attempt, status check and refund points at an existing intent, and attempts, checks and events
      are only ever added. */
  lemma {:induction false} RunKeeps(w: W.World, calls: seq<Call>)
    requires Consistent(w.db)
    ensures Consistent(Run(w, calls).db) && Grows(w.db, Run(w, calls).db)
    decreases |calls|
  {
    hide Consistent, Grows, Apply;
    if calls == [] {
      GrowsReflexive(w.db);
    } else {
      ApplyKeeps(w, calls[0]);
      RunKeeps(Apply(w, calls[0]), calls[1..]);
      GrowsTransitive(w.db, Apply(w, calls[0]).db, Run(w, calls).db);
    }
  }

  lemma EmptyConsistent()
    ensures Consistent(EMPTY)
  {
  }

  /** So every state the services can reach from an empty database is consistent. */
  lemma ReachableConsistent(calls: seq<Call>)
    ensures Consistent(Run(W.World(EMPTY, []), calls).db)
  {
    hide Consistent, Apply;
    EmptyConsistent();
    RunKeeps(W.World(EMPTY, []), calls);
  }
}
