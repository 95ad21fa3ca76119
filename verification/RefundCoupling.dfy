/** Refund rows and their payment intents agree: a refund marked refunded or partly refunded belongs
    to an intent marked so too. Which calls keep this, exactly, and what follows for whole runs. */
module RefundCoupling {
  import opened Text
  import opened Json
  import opened Ledger
  import opened LedgerInvariants
  import opened LedgerRuns
  import EventIds
  import RefundQuery
  import P = Payments
  import W = Webhooks

  function IntentStatus(intents: seq<Intent>, id: Id): Status {
    match FindId(intents, id)
    case Some(i) => intents[i].status
    case None => Unset
  }

  /** Every refund row marked as refunded has a parent intent marked as refunded. */
  ghost predicate Coupled(db: Db) {
    forall r <- db.refunds | IsRefundStatus(r.status) :: IsRefundStatus(IntentStatus(db.intents, r.intentId))
  }

  /** The intent with this reference has a refund row marked as refunded. */
  ghost predicate Exposed(db: Db, externalRef: string) {
    exists r <- db.refunds :: IsRefundStatus(r.status) && FindId(db.intents, r.intentId).Some? &&
                              db.intents[FindId(db.intents, r.intentId).value].externalRef == externalRef
  }

  /** The intent with this reference is marked as refunded. */
  ghost predicate RefundedRef(db: Db, externalRef: string) {
    exists x <- db.intents :: x.externalRef == externalRef && IsRefundStatus(x.status)
  }

  /** No intent leaves the refunded statuses. */
  ghost predicate RefundsStick(a: seq<Intent>, b: seq<Intent>) {
    |a| <= |b| && forall i | 0 <= i < |a| && IsRefundStatus(a[i].status) :: IsRefundStatus(b[i].status)
  }

  // ---- The table writes ----

  lemma FindIdAt(rows: seq<Intent>, i: nat)
    requires UniqueIntents(rows) && i < |rows|
    ensures FindId(rows, rows[i].id) == Some(i)
  {
  }

  /** Writing one intent row keeps the agreement exactly when the status written is a refund status
      or the intent has no refunded refund. */
  lemma WriteCoupling(db: Db, after: Db, externalRef: string, status: Status)
    requires Consistent(db) && Consistent(after) && Coupled(db) && after.refunds == db.refunds
    requires RowWritten(db.intents, after.intents, externalRef, status)
    ensures Coupled(after) <==> IsRefundStatus(status) || !Exposed(db, externalRef)
    ensures RefundsStick(db.intents, after.intents) <==> IsRefundStatus(status) || !RefundedRef(db, externalRef)
  {
    forall r | r in db.refunds
      ensures IntentStatus(after.intents, r.intentId) ==
              if db.intents[FindId(db.intents, r.intentId).value].externalRef == externalRef then status
              else IntentStatus(db.intents, r.intentId)
    {
      assert HasIntent(db, r.intentId);
      WrittenStatus(db.intents, after.intents, externalRef, status, r.intentId);
    }
    WriteSticks(db, after, externalRef, status);
  }

  lemma WrittenStatus(a: seq<Intent>, b: seq<Intent>, externalRef: string, status: Status, id: Id)
    requires UniqueIntents(a) && UniqueIntents(b) && FindId(a, id).Some? && RowWritten(a, b, externalRef, status)
    ensures IntentStatus(b, id) ==
            if a[FindId(a, id).value].externalRef == externalRef then status else IntentStatus(a, id)
  {
    FindIdAt(b, FindId(a, id).value);
  }

  lemma WriteSticks(db: Db, after: Db, externalRef: string, status: Status)
    requires UniqueIntents(db.intents) && RowWritten(db.intents, after.intents, externalRef, status)
    ensures RefundsStick(db.intents, after.intents) <==> IsRefundStatus(status) || !RefundedRef(db, externalRef)
  {
    var k := FindRef(db.intents, externalRef);
    if k.Some? {
      assert db.intents[k.value] in db.intents;
    }
    if RefundedRef(db, externalRef) {
      var x :| x in db.intents && x.externalRef == externalRef && IsRefundStatus(x.status);
      assert x == db.intents[k.value];
    }
  }

  /** Appending a refund row keeps the agreement exactly when the row is not refunded or its intent is. */
  lemma AppendCoupling(db: Db, after: Db, row: Refund)
    requires Coupled(db) && after.intents == db.intents && after.refunds == db.refunds + [row]
    ensures Coupled(after) <==> !IsRefundStatus(row.status) || IsRefundStatus(IntentStatus(db.intents, row.intentId))
  {
    assert row in after.refunds;
  }

  /** A settled refund and its marked intent agree; the transaction cannot break the agreement. */
  lemma SettledCoupling(db: Db, after: Db, k: nat, status: Status, response: Option<Json>, now: int)
    requires Consistent(db) && Coupled(db) && RowSettled(db, after, k, status, response, now)
    ensures Coupled(after) && RefundsStick(db.intents, after.intents)
  {
    if IsRefundStatus(status) {
      var i :| 0 <= i < |db.intents| && db.intents[i].id == db.refunds[k].intentId &&
               after.intents == db.intents[i := db.intents[i].(status := status, updatedAt := now)];
      MarkedStatus(db, after, i, status, now);
    }
    SettledRows(db, after, k, status, response, now);
  }

  lemma SettledRows(db: Db, after: Db, k: nat, status: Status, response: Option<Json>, now: int)
    requires RowSettled(db, after, k, status, response, now)
    ensures forall r <- after.refunds :: r in db.refunds || (r.status == status && r.intentId == db.refunds[k].intentId)
    ensures db.refunds[k] in db.refunds
  {
  }

  lemma MarkedStatus(db: Db, after: Db, i: nat, status: Status, now: int)
    requires UniqueIntents(db.intents) && i < |db.intents|
    requires after.intents == db.intents[i := db.intents[i].(status := status, updatedAt := now)]
    ensures IntentStatus(after.intents, db.intents[i].id) == status
    ensures forall id | HasIntent(db, id) && id != db.intents[i].id ::
              IntentStatus(after.intents, id) == IntentStatus(db.intents, id)
  {
    FindIdAt(after.intents, i);
    forall id | HasIntent(db, id) && id != db.intents[i].id
      ensures IntentStatus(after.intents, id) == IntentStatus(db.intents, id)
    {
      FindIdAt(after.intents, FindId(db.intents, id).value);
    }
  }

  // ---- Overwriting calls ----

  /** The status a Create leaves on its reference, if it writes the intent at all: pending once the
      first write is through, the answered status only when every later step succeeds. */
  function CreateLeaves(input: P.CreateInput, env: P.Env): Option<Status> {
    if !P.CreateAccepted(input) || !env.adapter || PendingUpsert in env.faults then None
    else if PendingReload in env.faults || env.answer.failed || InsertAttempt in env.faults || FinalUpsert in env.faults
    then Some(Pending)
    else Some(env.answer.status)
  }

  lemma RowRewritten(a: seq<Intent>, b: seq<Intent>, c: seq<Intent>, externalRef: string, s1: Status, s2: Status)
    requires UniqueIntents(a) && UniqueIntents(b)
    requires RowWritten(a, b, externalRef, s1) && RowWritten(b, c, externalRef, s2)
    ensures RowWritten(a, c, externalRef, s2)
  {
    var k := FindRef(a, externalRef);
    if k.None? {
      assert b[|a|].externalRef == externalRef;
    } else {
      assert b[k.value].externalRef == externalRef;
    }
  }

  lemma CreateWrites(db: Db, input: P.CreateInput, env: P.Env)
    requires Consistent(db)
    ensures var after := P.Create(db, input, env).0;
            && after.refunds == db.refunds
            && match CreateLeaves(input, env)
               case None => after.intents == db.intents
               case Some(s) => RowWritten(db.intents, after.intents, Trim(input.externalRef), s)
  {
    hide Grows, RowWritten, TryUpsert, AddAttempt, Trim, UniqueIntents, UniqueRefunds, IncreasingEvents, IdsUsed,
         Linked;
    if CreateLeaves(input, env).Some? {
      var ref := Trim(input.externalRef);
      TryUpsertKeeps(db, None, ref, input.provider, input.amount, input.currency, Pending,
                     input.metadata, env.now, PendingUpsert in env.faults, PendingReload in env.faults);
      var (d1, r1) := P.CreateUpsert(db, None, input, Pending, env.now, PendingUpsert in env.faults,
                                     PendingReload in env.faults);
      if r1.Ok? {
        var (d2, r2) := P.CreateAttempt(d1, r1.value, input, env);
        CreateAttemptKeeps(d1, r1.value, input, env);
        AttemptStored(d1, r1.value, input, env);
        TryUpsertKeeps(d2, Some(r1.value), ref, input.provider, input.amount, input.currency, env.answer.status,
                       input.metadata, env.now, FinalUpsert in env.faults, FinalReload in env.faults);
        var d3 := P.CreateUpsert(d2, Some(r1.value), input, env.answer.status, env.now,
                                 FinalUpsert in env.faults, FinalReload in env.faults).0;
        if FinalUpsert !in env.faults {
          RowRewritten(db.intents, d1.intents, d3.intents, ref, Pending, env.answer.status);
        } else {
          NoUpsert(d2, Some(r1.value), ref, input.provider, input.amount, input.currency, env.answer.status,
                   input.metadata, env.now, FinalReload in env.faults);
        }
      }
    } else {
      NoUpsert(db, None, Trim(input.externalRef), input.provider, input.amount, input.currency, Pending,
               input.metadata, env.now, PendingReload in env.faults);
    }
  }

  lemma NoUpsert(db: Db, id: Option<Id>, externalRef: string, provider: string, amount: int, currency: string,
                 status: Status, metadata: string, now: int, reloadFails: bool)
    ensures TryUpsert(db, id, externalRef, provider, amount, currency, status, metadata, now, true, reloadFails) ==
            (db, Err(Failure))
  {
  }

  /** The attempt row of a known intent is stored unless its insert fails. */
  lemma AttemptStored(db: Db, id: Id, input: P.CreateInput, env: P.Env)
    requires input.provider in PROVIDERS && exists i | 0 <= i < |db.intents| :: db.intents[i].id == id
    ensures P.CreateAttempt(db, id, input, env).1.Ok? <==> InsertAttempt !in env.faults
  {
  }

  /** The parsed event whose reconciliation a delivery attempts: its provider is named, its handler
      verified and parsed it, and it is not held back as a duplicate. */
  function Attempted(db: Db, d: W.Delivery): Option<(ParsedEvent, Option<Json>)> {
    if Trim(d.provider) == "" || !d.handling.Parsed? then None
    else
      var id := d.handling.event.eventId;
      if (Trim(id) != "" && LookupEvent in d.faults) || W.IsDuplicate(db, Trim(d.provider), id) then None
      else Some((d.handling.event, d.handling.payload))
  }

  /** The reference and status a payment (not refund) webhook overwrites. */
  function PaymentOverwrite(db: Db, d: W.Delivery, event: ParsedEvent): Option<(string, Status)> {
    var found := FindRef(db.intents, Trim(event.paymentRef));
    if IsRefundEvent(event.eventType) || Trim(event.paymentRef) == "" || LookupIntent in d.faults ||
       found.None? || FinalUpsert in d.faults then None
    else
      var intent := db.intents[found.value];
      if intent.provider != Trim(d.provider) || intent.status == event.status then None
      else Some((intent.externalRef, event.status))
  }

  /** The reference and status a call writes without looking at the status it replaces: only Create and
      payment webhooks do so. */
  function Overwrites(w: W.World, c: Call): Option<(string, Status)> {
    match c
    case CreateCall(input, env) =>
      (match CreateLeaves(input, env)
       case Some(s) => Some((Trim(input.externalRef), s))
       case None => None)
    case WebhookCall(d) =>
      (match Attempted(w.db, d)
       case Some((event, _)) => PaymentOverwrite(w.db, d, event)
       case None => None)
    case _ => None
  }

  // ---- Calls that respect the stored status ----

  /** Two databases with the same intents and refunds agree on everything here. */
  lemma SameTables(db: Db, after: Db)
    requires after.intents == db.intents && after.refunds == db.refunds
    ensures Coupled(db) <==> Coupled(after)
    ensures RefundsStick(db.intents, after.intents)
  {
  }

  lemma ExposedIsRefunded(db: Db, externalRef: string)
    requires Consistent(db) && Coupled(db) && Exposed(db, externalRef)
    ensures RefundedRef(db, externalRef)
  {
    var r :| r in db.refunds && IsRefundStatus(r.status) && FindId(db.intents, r.intentId).Some? &&
             db.intents[FindId(db.intents, r.intentId).value].externalRef == externalRef;
    assert IsRefundStatus(IntentStatus(db.intents, r.intentId));
  }

  lemma RefundedRow(db: Db, k: nat)
    requires UniqueIntents(db.intents) && k < |db.intents|
    ensures RefundedRef(db, db.intents[k].externalRef) <==> IsRefundStatus(db.intents[k].status)
  {
    assert db.intents[k] in db.intents;
  }

  /** An inquiry stores the merged status of its intent or leaves the table alone. */
  lemma InquiryWrites(db: Db, intent: Intent, provider: string, providerRef: string, env: P.Env)
    requires Consistent(db)
    ensures var after := P.RecordInquiry(db, intent, provider, providerRef, env).0;
            && after.refunds == db.refunds
            && (after.intents == db.intents ||
                RowWritten(db.intents, after.intents, intent.externalRef,
                           P.StatusUpdate(intent.status, env.answer.status).0))
  {
    hide Grows, RowWritten, TryUpsert, UniqueIntents, UniqueRefunds, IncreasingEvents, IdsUsed, Linked;
    SetStatusKeeps(db, intent, P.StatusUpdate(intent.status, env.answer.status).0, env.now,
                   FinalUpsert in env.faults, FinalReload in env.faults);
  }

  lemma InquiryCouples(db: Db, input: P.InquiryInput, env: P.Env, mustExist: bool)
    requires Consistent(db) && Coupled(db)
    ensures var after := P.Inquire(db, input, env, mustExist).0;
            Coupled(after) && RefundsStick(db.intents, after.intents)
  {
    hide Grows, Coupled, RefundsStick, RowWritten, UniqueRefunds, IncreasingEvents, IdsUsed, Linked, P.RecordInquiry;
    var after := P.Inquire(db, input, env, mustExist).0;
    SameTables(db, db);
    var found := FindRef(db.intents, Trim(input.reference));
    if found.Some? {
      var intent := db.intents[found.value];
      var ref := P.ProviderReference(db, input.providerRef, input.reference, Some(intent.id), input.provider,
                                     env.prefer, LookupAttempt in env.faults);
      if ref.Ok? && after != db {
        InquiryWrites(db, intent, input.provider, ref.value, env);
        RecordInquiryKeeps(db, intent, input.provider, ref.value, env);
        if after.intents == db.intents {
          SameTables(db, after);
        } else {
          WriteCoupling(db, after, intent.externalRef, P.StatusUpdate(intent.status, env.answer.status).0);
          RefundedRow(db, found.value);
          if Exposed(db, intent.externalRef) {
            ExposedIsRefunded(db, intent.externalRef);
          }
        }
      }
    }
  }

  // ---- Refund calls ----

  /** The intent a Refund call works on, if it gets as far as asking the provider. */
  function RefundReaches(db: Db, input: P.RefundInput, env: P.Env): (r: Option<nat>)
    ensures r.Some? ==> r.value < |db.intents|
  {
    var found := FindRef(db.intents, Trim(input.reference));
    if !P.RefundAccepted(input) || LookupIntent in env.faults || found.None? || !env.adapter then None
    else
      var intent := db.intents[found.value];
      if P.ProviderReference(db, input.providerRef, intent.externalRef, Some(intent.id), input.provider,
                             env.prefer, LookupAttempt in env.faults).Err? then None
      else found
  }

  /** The one way a Refund call breaks the agreement: the refund row is stored as refunded, then the
      write of the intent fails, and the intent was not refunded before. */
  predicate LosesRefund(db: Db, input: P.RefundInput, env: P.Env) {
    match RefundReaches(db, input, env)
    case None => false
    case Some(k) =>
      InsertRefund !in env.faults && !env.answer.failed && IsRefundStatus(env.answer.status) &&
      FinalUpsert in env.faults && !IsRefundStatus(db.intents[k].status)
  }

  /** Writing a refund status after appending a refund of the same intent restores the agreement. */
  lemma AppendThenMark(db: Db, after: Db, row: Refund, k: nat, status: Status)
    requires Consistent(db) && Coupled(db) && UniqueIntents(after.intents) && k < |db.intents|
    requires after.refunds == db.refunds + [row] && row.intentId == db.intents[k].id
    requires RowWritten(db.intents, after.intents, db.intents[k].externalRef, status) && IsRefundStatus(status)
    ensures Coupled(after) && RefundsStick(db.intents, after.intents)
  {
    FindIdAt(db.intents, k);
    forall r | r in after.refunds && IsRefundStatus(r.status)
      ensures IsRefundStatus(IntentStatus(after.intents, r.intentId))
    {
      assert r == row || r in db.refunds;
      WrittenStatus(db.intents, after.intents, db.intents[k].externalRef, status, r.intentId);
    }
    WriteSticks(db, after, db.intents[k].externalRef, status);
  }

  /** What a Refund call that reaches the provider does to intents and refunds. */
  lemma RefundWrites(db: Db, intent: Intent, input: P.RefundInput, providerRef: string, env: P.Env)
    requires Consistent(db) && HasIntent(db, intent.id) && FindRef(db.intents, intent.externalRef).Some?
    requires input.provider in PROVIDERS && intent.provider in PROVIDERS
    ensures var after := P.RecordRefundAnswer(db, intent, input, providerRef, env).0;
            if InsertRefund in env.faults then after == db
            else
              && |after.refunds| == |db.refunds| + 1 && after.refunds == db.refunds + [after.refunds[|db.refunds|]]
              && after.refunds[|db.refunds|].intentId == intent.id
              && after.refunds[|db.refunds|].status == P.RefundRowStatus(env.answer)
              && if env.answer.failed || !IsRefundStatus(env.answer.status) || FinalUpsert in env.faults
                 then after.intents == db.intents
                 else RowWritten(db.intents, after.intents, intent.externalRef, env.answer.status)
  {
    hide Grows, RowWritten, TryUpsert, UniqueIntents, UniqueRefunds, IncreasingEvents, IdsUsed, Linked, Trim;
    if InsertRefund !in env.faults {
      var answer := env.answer;
      var stored := if Trim(answer.providerRef) != "" then Trim(answer.providerRef) else providerRef;
      var amount := if input.amount == 0 then intent.amount else input.amount;
      AddRefundKeeps(db, intent.id, input.provider, amount, P.RefundRowStatus(answer), answer.request,
                     answer.response, stored, env.now);
      var d1 := AddRefund(db, intent.id, input.provider, amount, P.RefundRowStatus(answer), answer.request,
                          answer.response, stored, env.now).0;
      if FinalUpsert in env.faults {
        NoUpsert(d1, Some(intent.id), intent.externalRef, intent.provider, intent.amount, intent.currency,
                 answer.status, intent.metadata, env.now, FinalReload in env.faults);
      } else {
        TryUpsertKeeps(d1, Some(intent.id), intent.externalRef, intent.provider, intent.amount, intent.currency,
                       answer.status, intent.metadata, env.now, FinalUpsert in env.faults, FinalReload in env.faults);
      }
    }
  }

  lemma RefundCouples(db: Db, input: P.RefundInput, env: P.Env)
    requires Consistent(db) && Coupled(db)
    ensures var after := P.Refund(db, input, env).0;
            (Coupled(after) <==> !LosesRefund(db, input, env)) && RefundsStick(db.intents, after.intents)
  {
    hide Grows, Coupled, RefundsStick, RowWritten, UniqueRefunds, IncreasingEvents, P.RecordRefundAnswer, Linked;
    SameTables(db, db);
    var reached := RefundReaches(db, input, env);
    if reached.Some? {
      var k := reached.value;
      var intent := db.intents[k];
      assert intent in db.intents;
      var ref := P.ProviderReference(db, input.providerRef, intent.externalRef, Some(intent.id), input.provider,
                                     env.prefer, LookupAttempt in env.faults).value;
      FindIdAt(db.intents, k);
      RefundWrites(db, intent, input, ref, env);
      RecordRefundAnswerKeeps(db, intent, input, ref, env);
      RefundAnswerCouples(db, P.RecordRefundAnswer(db, intent, input, ref, env).0, k, env);
    }
  }

  lemma RefundAnswerCouples(db: Db, after: Db, k: nat, env: P.Env)
    requires Consistent(db) && Coupled(db) && Consistent(after) && k < |db.intents|
    requires if InsertRefund in env.faults then after == db
             else
               && |after.refunds| == |db.refunds| + 1 && after.refunds == db.refunds + [after.refunds[|db.refunds|]]
               && after.refunds[|db.refunds|].intentId == db.intents[k].id
               && after.refunds[|db.refunds|].status == P.RefundRowStatus(env.answer)
               && if env.answer.failed || !IsRefundStatus(env.answer.status) || FinalUpsert in env.faults
                  then after.intents == db.intents
                  else RowWritten(db.intents, after.intents, db.intents[k].externalRef, env.answer.status)
    ensures Coupled(after) <==>
              !(InsertRefund !in env.faults && !env.answer.failed && IsRefundStatus(env.answer.status) &&
                FinalUpsert in env.faults && !IsRefundStatus(db.intents[k].status))
    ensures RefundsStick(db.intents, after.intents)
  {
    hide Consistent, Coupled, RefundsStick, RowWritten;
    SameTables(db, db);
    if InsertRefund !in env.faults {
      var row := after.refunds[|db.refunds|];
      FirstWithId(db, k);
      if env.answer.failed || !IsRefundStatus(env.answer.status) || FinalUpsert in env.faults {
        AppendCoupling(db, after, row);
        SameTables(db.(refunds := after.refunds), after);
      } else {
        AfterUnique(after);
        AppendThenMark(db, after, row, k, env.answer.status);
      }
    }
  }

  lemma AfterUnique(db: Db)
    requires Consistent(db)
    ensures UniqueIntents(db.intents)
  {
  }

  lemma FirstWithId(db: Db, k: nat)
    requires Consistent(db) && k < |db.intents|
    ensures IntentStatus(db.intents, db.intents[k].id) == db.intents[k].status
  {
    FindIdAt(db.intents, k);
  }

  // ---- Webhook deliveries ----

  /** Recording an event touches neither intents nor refunds, so a delivery changes them exactly as the
      reconciliation it attempts does. */
  lemma ProcessTables(w: W.World, d: W.Delivery)
    ensures var after := W.Process(w, d).0.db;
            match Attempted(w.db, d)
            case None => after.intents == w.db.intents && after.refunds == w.db.refunds
            case Some((event, payload)) =>
              var reconciled := W.ReconcileEvent(w.db, d, event, payload).0;
              after.intents == reconciled.intents && after.refunds == reconciled.refunds
  {
    hide W.ReconcileEvent, Trim, W.IsDuplicate;
  }

  lemma PaymentWebhookWrites(db: Db, d: W.Delivery, event: ParsedEvent)
    requires Consistent(db) && !IsRefundEvent(event.eventType)
    ensures var after := W.ReconcilePayment(db, d, event).0;
            && after.refunds == db.refunds
            && match PaymentOverwrite(db, d, event)
               case None => after.intents == db.intents
               case Some((ref, status)) => RowWritten(db.intents, after.intents, ref, status)
  {
    hide Grows, RowWritten, TryUpsert, UniqueIntents, UniqueRefunds, IncreasingEvents, Linked, Trim;
    var found := FindRef(db.intents, Trim(event.paymentRef));
    if found.Some? {
      var intent := db.intents[found.value];
      assert intent in db.intents;
      TryUpsertKeeps(db, Some(intent.id), intent.externalRef, intent.provider, intent.amount, intent.currency,
                     event.status, intent.metadata, d.now, FinalUpsert in d.faults, FinalReload in d.faults);
      NoUpsert(db, Some(intent.id), intent.externalRef, intent.provider, intent.amount, intent.currency,
               event.status, intent.metadata, d.now, FinalReload in d.faults);
    }
  }

  lemma RefundWebhookCouples(db: Db, d: W.Delivery, event: ParsedEvent, payload: Option<Json>)
    requires Consistent(db) && Coupled(db)
    ensures var after := W.ReconcileRefund(db, d, event, payload).0;
            Coupled(after) && RefundsStick(db.intents, after.intents)
  {
    hide Consistent, Coupled, RefundsStick, Picked, RowSettled, RefundQuery.Reconcile, EventIds.CleanParts,
         EventIds.Identifiers;
    SameTables(db, db);
    var ids := EventIds.Identifiers(event.paymentRef, event.eventId);
    var usable := EventIds.CleanParts(ids);
    ReconcileExact(db, Trim(d.provider), ids, event.status, payload, d.now, d.prefer, d.faults);
    var (after, r) := RefundQuery.Reconcile(db, Trim(d.provider), ids, event.status, payload, d.now, d.prefer,
                                            d.faults);
    if usable != [] && r.Ok? {
      var finds := RefundQuery.Finder(Trim(d.provider), usable);
      var k: nat :| Picked(db, finds, k) && RowSettled(db, after, k, event.status, payload, d.now);
      SettledCoupling(db, after, k, event.status, payload, d.now);
    }
  }

  // ---- The exact conditions ----

  /** A call that keeps refunds and intents in agreement, judged from the state before it: it does not
      lose a refund, and it does not overwrite an intent that has a refunded refund with anything but
      a refund status. */
  ghost predicate Safe(w: W.World, c: Call) {
    && (c.RefundCall? ==> !LosesRefund(w.db, c.refund, c.env))
    && match Overwrites(w, c)
       case None => true
       case Some((ref, status)) => IsRefundStatus(status) || !Exposed(w.db, ref)
  }

  /** A call that takes no intent out of the refunded statuses. */
  ghost predicate Sticky(w: W.World, c: Call) {
    match Overwrites(w, c)
    case None => true
    case Some((ref, status)) => IsRefundStatus(status) || !RefundedRef(w.db, ref)
  }

  lemma OverwriteCoupling(db: Db, after: Db, overwrite: Option<(string, Status)>)
    requires Consistent(db) && Consistent(after) && Coupled(db) && after.refunds == db.refunds
    requires match overwrite
             case None => after.intents == db.intents
             case Some((ref, status)) => RowWritten(db.intents, after.intents, ref, status)
    ensures Coupled(after) <==>
              match overwrite
              case None => true
              case Some((ref, status)) => IsRefundStatus(status) || !Exposed(db, ref)
    ensures RefundsStick(db.intents, after.intents) <==>
              match overwrite
              case None => true
              case Some((ref, status)) => IsRefundStatus(status) || !RefundedRef(db, ref)
  {
    hide Consistent, Coupled, RowWritten, Exposed, RefundedRef, RefundsStick;
    match overwrite
    case None => SameTables(db, after);
    case Some((ref, status)) => WriteCoupling(db, after, ref, status);
  }

  lemma WebhookCouples(w: W.World, d: W.Delivery)
    requires Consistent(w.db) && Coupled(w.db)
    ensures var after := W.Process(w, d).0.db;
            && (Coupled(after) <==> Safe(w, WebhookCall(d)))
            && (RefundsStick(w.db.intents, after.intents) <==> Sticky(w, WebhookCall(d)))
  {
    hide Consistent, Coupled, RefundsStick, RowWritten, Exposed, RefundedRef, W.Process, W.ReconcileRefund,
         W.ReconcilePayment, PaymentOverwrite, Attempted;
    var after := W.Process(w, d).0.db;
    ProcessTables(w, d);
    ProcessKeeps(w, d);
    match Attempted(w.db, d)
    case None => SameTables(w.db, after);
    case Some((event, payload)) =>
      if IsRefundEvent(event.eventType) {
        NoPaymentOverwrite(w.db, d, event);
        RefundWebhookCouples(w.db, d, event, payload);
        SameTables(W.ReconcileRefund(w.db, d, event, payload).0, after);
      } else {
        PaymentWebhookWrites(w.db, d, event);
        OverwriteCoupling(w.db, after, PaymentOverwrite(w.db, d, event));
      }
  }

  lemma NoPaymentOverwrite(db: Db, d: W.Delivery, event: ParsedEvent)
    requires IsRefundEvent(event.eventType)
    ensures PaymentOverwrite(db, d, event) == None
  {
  }

  /** Exactly the safe calls keep the agreement, and exactly the sticky calls keep every refunded intent
      refunded, whatever providers answer and whichever store operations fail. */
  lemma CouplingExact(w: W.World, c: Call)
    requires Consistent(w.db) && Coupled(w.db)
    ensures Coupled(Apply(w, c).db) <==> Safe(w, c)
    ensures RefundsStick(w.db.intents, Apply(w, c).db.intents) <==> Sticky(w, c)
  {
    hide Consistent, Coupled, RefundsStick, RowWritten, Exposed, RefundedRef;
    match c
    case CreateCall(input, env) =>
      CreateWrites(w.db, input, env);
      CreateKeeps(w.db, input, env);
      OverwriteCoupling(w.db, P.Create(w.db, input, env).0, Overwrites(w, c));
    case StatusCall(input, env) => InquiryCouples(w.db, input, env, false);
    case ReconcileCall(input, env) => InquiryCouples(w.db, input, env, true);
    case RefundCall(input, env) => RefundCouples(w.db, input, env);
    case WebhookCall(d) => WebhookCouples(w, d);
  }

  // ---- Whole runs ----

  ghost predicate AlwaysCoupled(w: W.World, calls: seq<Call>)
    decreases |calls|
  {
    Coupled(w.db) && (calls == [] || AlwaysCoupled(Apply(w, calls[0]), calls[1..]))
  }

  ghost predicate SafeRun(w: W.World, calls: seq<Call>)
    decreases |calls|
  {
    calls == [] || (Safe(w, calls[0]) && SafeRun(Apply(w, calls[0]), calls[1..]))
  }

  /** Refunds and intents agree at every moment of a run exactly when every call of it is safe. */
  lemma {:induction false} RunCouplingExact(w: W.World, calls: seq<Call>)
    requires Consistent(w.db) && Coupled(w.db)
    ensures AlwaysCoupled(w, calls) <==> SafeRun(w, calls)
    decreases |calls|
  {
    hide Consistent, Coupled, Safe, Sticky, RefundsStick, Apply;
    if calls != [] {
      CouplingExact(w, calls[0]);
      ApplyKeeps(w, calls[0]);
      if Safe(w, calls[0]) {
        RunCouplingExact(Apply(w, calls[0]), calls[1..]);
      }
    }
  }

  /** A call of the orderly kind: Create on a reference not yet known, any Status, Reconcile or Refund
      whose store writes do not fail, and webhooks about refunds. */
  ghost predicate Orderly(w: W.World, c: Call) {
    match c
    case CreateCall(input, _) => FindRef(w.db.intents, Trim(input.externalRef)).None?
    case RefundCall(_, env) => FinalUpsert !in env.faults
    case WebhookCall(d) => d.handling.Parsed? ==> IsRefundEvent(d.handling.event.eventType)
    case _ => true
  }

  ghost predicate OrderlyRun(w: W.World, calls: seq<Call>)
    decreases |calls|
  {
    calls == [] || (Orderly(w, calls[0]) && OrderlyRun(Apply(w, calls[0]), calls[1..]))
  }

  lemma OrderlyIsSafe(w: W.World, c: Call)
    requires Consistent(w.db) && Orderly(w, c)
    ensures Safe(w, c) && Sticky(w, c)
  {
    hide Consistent, Trim, IsRefundEvent, W.IsDuplicate;
  }

  lemma SticksTransitive(a: seq<Intent>, b: seq<Intent>, c: seq<Intent>)
    requires RefundsStick(a, b) && RefundsStick(b, c)
    ensures RefundsStick(a, c)
  {
  }

  /** In a run of orderly calls every refunded refund keeps a refunded intent, and an intent that
      becomes refunded never stops being so. */
  lemma {:induction false} OrderlyRunCoupled(w: W.World, calls: seq<Call>)
    requires Consistent(w.db) && Coupled(w.db) && OrderlyRun(w, calls)
    ensures Coupled(Run(w, calls).db) && RefundsStick(w.db.intents, Run(w, calls).db.intents)
    decreases |calls|
  {
    hide Consistent, Coupled, Safe, Sticky, RefundsStick, Apply, Orderly;
    if calls == [] {
      SameTables(w.db, w.db);
    } else {
      var next := Apply(w, calls[0]);
      OrderlyIsSafe(w, calls[0]);
      CouplingExact(w, calls[0]);
      ApplyKeeps(w, calls[0]);
      OrderlyRunCoupled(next, calls[1..]);
      SticksTransitive(w.db.intents, next.db.intents, Run(w, calls).db.intents);
    }
  }

  // ---- The condition is needed ----

  const REFUNDED_WORLD := W.World(
    Db([Intent(0, "r", "xendit", 100, "IDR", Refunded, "{}", 1)], [], [],
       [Refund(1, 0, "xendit", 100, Refunded, JNull, JNull, "", 1, 1)], [], 2), [])

  const LATE_SETTLEMENT := W.Delivery(
    "xendit", W.Parsed(ParsedEvent("paid:p", "paid", "r", Settled), None), 2, 0, {}, true)

  lemma RefundedWorldFacts()
    ensures Consistent(REFUNDED_WORLD.db) && Coupled(REFUNDED_WORLD.db) && Exposed(REFUNDED_WORLD.db, "r")
    ensures FindRef(REFUNDED_WORLD.db.intents, "r") == Some(0)
  {
    var db := REFUNDED_WORLD.db;
    assert FindRef(db.intents, "r") == Some(0) && FindId(db.intents, 0) == Some(0);
    assert db.refunds[0] in db.refunds;
  }

  lemma LiteralTexts()
    ensures Trim("xendit") == "xendit" && Trim("r") == "r" && Trim("p") == "p" && Trim("paid:p") == "paid:p"
    ensures !IsRefundEvent("paid")
  {
    assert Trim("paid") == "paid" && |Lower("paid")| == 4;
  }

  lemma LateSettlementOverwrites()
    ensures Overwrites(REFUNDED_WORLD, WebhookCall(LATE_SETTLEMENT)) == Some(("r", Settled))
  {
    hide Trim, IsRefundEvent, Consistent, Coupled, Exposed, FindRef;
    RefundedWorldFacts();
    LiteralTexts();
    assert Attempted(REFUNDED_WORLD.db, LATE_SETTLEMENT) == Some((LATE_SETTLEMENT.handling.event, None));
  }

  /** A payment webhook that arrives after the refund takes the intent out of the refunded statuses
      while its refund row stays refunded. */
  lemma LateSettlementUncouples()
    ensures Consistent(REFUNDED_WORLD.db) && Coupled(REFUNDED_WORLD.db)
    ensures !Coupled(Apply(REFUNDED_WORLD, WebhookCall(LATE_SETTLEMENT)).db)
  {
    hide Apply, Overwrites, Consistent, Coupled, Exposed;
    RefundedWorldFacts();
    LateSettlementOverwrites();
    CouplingExact(REFUNDED_WORLD, WebhookCall(LATE_SETTLEMENT));
  }

  const CREATE_AGAIN := CreateCall(
    P.CreateInput("xendit", true, "r", 100, "IDR", true, "{}"),
    P.Env(2, true, P.Answer(true, Unset, "", JNull, JNull), 0, {}))

  /** A Create on a refunded reference resets it to pending before asking the provider, and leaves it so
      when the provider fails. */
  lemma CreateAgainUncouples()
    ensures Consistent(REFUNDED_WORLD.db) && Coupled(REFUNDED_WORLD.db)
    ensures !Coupled(Apply(REFUNDED_WORLD, CREATE_AGAIN).db)
  {
    hide Apply, Consistent, Coupled, Exposed, Trim;
    RefundedWorldFacts();
    LiteralTexts();
    assert CreateLeaves(CREATE_AGAIN.create, CREATE_AGAIN.env) == Some(Pending);
    CouplingExact(REFUNDED_WORLD, CREATE_AGAIN);
  }

  const PAID_WORLD := W.World(Db([Intent(0, "r", "xendit", 100, "IDR", Paid, "{}", 1)], [], [], [], [], 1), [])

  const LOST_REFUND := RefundCall(
    P.RefundInput("xendit", true, "r", "p", 0),
    P.Env(2, true, P.Answer(false, Refunded, "", JNull, JNull), 0, {FinalUpsert}))

  lemma PaidWorldFacts()
    ensures Consistent(PAID_WORLD.db) && Coupled(PAID_WORLD.db) && FindRef(PAID_WORLD.db.intents, "r") == Some(0)
  {
  }

  /** A refund whose row is stored but whose intent write fails leaves a refunded refund under a paid intent. */
  lemma LostRefundUncouples()
    ensures Consistent(PAID_WORLD.db) && Coupled(PAID_WORLD.db)
    ensures !Coupled(Apply(PAID_WORLD, LOST_REFUND).db)
  {
    hide Apply, Consistent, Coupled, Trim, FindRef;
    PaidWorldFacts();
    LiteralTexts();
    assert RefundReaches(PAID_WORLD.db, LOST_REFUND.refund, LOST_REFUND.env) == Some(0);
    CouplingExact(PAID_WORLD, LOST_REFUND);
  }
}
