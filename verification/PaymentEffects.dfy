/** What the payment service's operations leave in the tables and answer, written out field by field from
    the call and the state before it. */
module PaymentEffects {
  import opened Text
  import opened Json
  import opened Ledger
  import opened LedgerInvariants
  import P = Payments

  predicate KnownProvider(provider: string) {
    provider == "midtrans" || provider == "xendit" || provider == "doku" || provider == "ipaymu"
  }

  // ---- The provider's own reference ----

  predicate AttemptOf(a: Attempt, intentId: Id, provider: string) {
    a.intentId == intentId && a.provider == provider
  }

  /** An attempt of the intent with the provider that no other such attempt exceeds in creation key. */
  ghost predicate IsLatest(db: Db, a: Attempt, intentId: Id, provider: string) {
    && a in db.attempts && AttemptOf(a, intentId, provider)
    && forall b <- db.attempts | AttemptOf(b, intentId, provider) :: b.createdAt <= a.createdAt
  }

  function OrElse(text: string, other: string): string {
    if Trim(text) != "" then Trim(text) else Trim(other)
  }

  /** The reference to use for a known intent: the caller's when it is not blank; else that of a latest
      attempt, when there is one and it is not blank; else the fallback. Each is trimmed. */
  ghost predicate Chosen(db: Db, explicit: string, fallback: string, intentId: Id, provider: string, chosen: string) {
    if Trim(explicit) != "" then chosen == Trim(explicit)
    else if exists a <- db.attempts :: AttemptOf(a, intentId, provider) then
      exists a <- db.attempts :: IsLatest(db, a, intentId, provider) && chosen == OrElse(a.providerRef, fallback)
    else chosen == Trim(fallback)
  }

  /** The caller's reference needs no lookup; without an intent there is nothing to look up; otherwise the
      lookup must work, and the reference chosen is one that `Chosen` allows. */
  lemma ReferenceChosen(db: Db, explicit: string, fallback: string, intent: Option<Id>, provider: string,
                        prefer: nat, lookupFails: bool)
    ensures var r := P.ProviderReference(db, explicit, fallback, intent, provider, prefer, lookupFails);
            && (r.Err? <==> Trim(explicit) == "" && intent.Some? && lookupFails)
            && (r.Err? ==> r.error == Failure)
            && (r.Ok? && intent.Some? ==> Chosen(db, explicit, fallback, intent.value, provider, r.value))
            && (intent.None? ==> r == Ok(OrElse(explicit, fallback)))
  {
    hide Trim;
    if Trim(explicit) == "" && intent.Some? && !lookupFails {
      var k := LatestAttempt(db, intent.value, provider, prefer);
      if k.Some? {
        LatestIsLatest(db, intent.value, provider, prefer);
      }
    }
  }

  lemma LatestIsLatest(db: Db, intentId: Id, provider: string, prefer: nat)
    requires LatestAttempt(db, intentId, provider, prefer).Some?
    ensures var k := LatestAttempt(db, intentId, provider, prefer).value;
            k < |db.attempts| && IsLatest(db, db.attempts[k], intentId, provider)
  {
  }

  // ---- Refund ----

  /** The call gets as far as asking the provider. */
  predicate RefundAsked(db: Db, input: P.RefundInput, env: P.Env) {
    && KnownProvider(input.provider) && input.validEnvironment && Trim(input.reference) != "" && input.amount >= 0
    && LookupIntent !in env.faults && FindRef(db.intents, Trim(input.reference)).Some?
    && (Trim(input.providerRef) != "" || LookupAttempt !in env.faults) && env.adapter
  }

  predicate Refunds(s: Status) {
    s == Refunded || s == PartialRefunded
  }

  /** The refund row of a call, with the provider's reference resolved before it. */
  predicate RefundRow(row: Refund, id: Id, intent: Intent, input: P.RefundInput, env: P.Env, resolved: string) {
    && row.id == id && row.intentId == intent.id && row.provider == input.provider
    && row.amount == (if input.amount > 0 then input.amount else intent.amount)
    && row.status == (if env.answer.failed then Failed
                      else if env.answer.status == Unset then Pending else env.answer.status)
    && row.request == env.answer.request && row.response == env.answer.response
    && row.providerRef == (if Trim(env.answer.providerRef) != "" then Trim(env.answer.providerRef) else resolved)
    && row.createdAt == env.now && row.updatedAt == env.now
  }

  /** The intent's status is written. */
  predicate RefundMarks(env: P.Env) {
    !env.answer.failed && Refunds(env.answer.status) && FinalUpsert !in env.faults
  }

  /** Refund, field by field. A call that does not ask the provider, or whose insert fails, changes nothing;
      otherwise one row is appended, and the intent takes the provider's status exactly when that is a
      refund status, the provider did not err and the write works. Nothing else changes. It succeeds
      exactly when the insert works, the provider did not err, and the status write, if one is due, does
      too. */
  lemma RefundExactly(db: Db, input: P.RefundInput, env: P.Env) returns (row: Refund, resolved: string)
    requires Consistent(db)
    ensures var (after, ok) := P.Refund(db, input, env);
            ok <==> RefundAsked(db, input, env) && InsertRefund !in env.faults && !env.answer.failed &&
                    (Refunds(env.answer.status) ==> FinalUpsert !in env.faults && FinalReload !in env.faults)
    ensures var after := P.Refund(db, input, env).0;
            if !RefundAsked(db, input, env) || InsertRefund in env.faults then after == db
            else
              var k := FindRef(db.intents, Trim(input.reference)).value;
              var intent := db.intents[k];
              && Chosen(db, input.providerRef, intent.externalRef, intent.id, input.provider, resolved)
              && RefundRow(row, db.nextId, intent, input, env, resolved)
              && after == db.(refunds := db.refunds + [row], nextId := db.nextId + 1,
                              intents := if RefundMarks(env)
                                         then db.intents[k := intent.(status := env.answer.status,
                                                                      updatedAt := env.now)]
                                         else db.intents)
  {
    hide Trim, Chosen, P.ProviderReference, IncreasingEvents, UniqueRefunds, P.RecordRefundAnswer;
    row, resolved := Refund(0, 0, "", 0, Unset, JNull, JNull, "", 0, 0), "";
    var found := FindRef(db.intents, Trim(input.reference));
    if found.Some? {
      var k := found.value;
      var intent := db.intents[k];
      ReferenceChosen(db, input.providerRef, intent.externalRef, Some(intent.id), input.provider, env.prefer,
                      LookupAttempt in env.faults);
      var ref := P.ProviderReference(db, input.providerRef, intent.externalRef, Some(intent.id), input.provider,
                                     env.prefer, LookupAttempt in env.faults);
      if RefundAsked(db, input, env) {
        resolved := ref.value;
        row := RefundAnswerExactly(db, k, input, resolved, env);
      }
    }
  }

  lemma KnownIntent(db: Db, k: nat)
    requires Consistent(db) && k < |db.intents|
    ensures db.intents[k].provider in PROVIDERS && HasIntent(db, db.intents[k].id)
    ensures FindRef(db.intents, db.intents[k].externalRef) == Some(k)
  {
    assert db.intents[k] in db.intents;
  }

  /** Writing the status of intent k. */
  lemma StatusWrite(db: Db, k: nat, status: Status, now: int, execFails: bool, reloadFails: bool)
    requires k < |db.intents| && db.intents[k].provider in PROVIDERS
    requires FindRef(db.intents, db.intents[k].externalRef) == Some(k)
    ensures var (after, r) := SetStatus(db, db.intents[k], status, now, execFails, reloadFails);
            && (r.Ok? <==> !execFails && !reloadFails)
            && after == if execFails then db
                        else db.(intents := db.intents[k := db.intents[k].(status := status, updatedAt := now)])
  {
  }

  /** A refund row of a known intent and provider, pending when no status is given. */
  lemma RefundInserted(db: Db, k: nat, provider: string, amount: int, status: Status, request: Json, response: Json,
                       providerRef: string, now: int)
    requires k < |db.intents| && KnownProvider(provider)
    ensures var id := db.intents[k].id;
            var given := if status == Unset then Pending else status;
            var row := Refund(db.nextId, id, provider, amount, given, request, response, providerRef, now, now);
            AddRefund(db, id, provider, amount, status, request, response, providerRef, now) ==
            (db.(refunds := db.refunds + [row], nextId := db.nextId + 1), Ok(db.nextId))
  {
  }

  lemma RefundAnswerExactly(db: Db, k: nat, input: P.RefundInput, resolved: string, env: P.Env) returns (row: Refund)
    requires Consistent(db) && k < |db.intents| && KnownProvider(input.provider) && input.amount >= 0
    ensures var (after, ok) := P.RecordRefundAnswer(db, db.intents[k], input, resolved, env);
            && (ok <==> InsertRefund !in env.faults && !env.answer.failed &&
                        (Refunds(env.answer.status) ==> FinalUpsert !in env.faults && FinalReload !in env.faults))
            && if InsertRefund in env.faults then after == db
               else
                 && RefundRow(row, db.nextId, db.intents[k], input, env, resolved)
                 && after == db.(refunds := db.refunds + [row], nextId := db.nextId + 1,
                                 intents := if RefundMarks(env)
                                            then db.intents[k := db.intents[k].(status := env.answer.status,
                                                                                updatedAt := env.now)]
                                            else db.intents)
  {
    hide Trim, Consistent, SetStatus, AddRefund;
    KnownIntent(db, k);
    var intent := db.intents[k];
    var stored := if Trim(env.answer.providerRef) != "" then Trim(env.answer.providerRef) else resolved;
    var amount := if input.amount > 0 then input.amount else intent.amount;
    var d1 := AddRefund(db, intent.id, input.provider, amount, P.RefundRowStatus(env.answer), env.answer.request,
                        env.answer.response, stored, env.now).0;
    row := Refund(db.nextId, intent.id, input.provider, amount, P.RefundRowStatus(env.answer), env.answer.request,
                  env.answer.response, stored, env.now, env.now);
    if InsertRefund !in env.faults {
      RefundInserted(db, k, input.provider, amount, P.RefundRowStatus(env.answer), env.answer.request,
                     env.answer.response, stored, env.now);
      assert d1 == db.(refunds := db.refunds + [row], nextId := db.nextId + 1);
      StatusWrite(d1, k, env.answer.status, env.now, FinalUpsert in env.faults, FinalReload in env.faults);
    }
  }

  // ---- Status and Reconcile ----

  /** The call gets as far as asking the provider; Reconcile needs a known reference. */
  predicate InquiryAsked(db: Db, input: P.InquiryInput, env: P.Env, mustExist: bool) {
    && KnownProvider(input.provider) && input.validEnvironment && Trim(input.reference) != ""
    && LookupIntent !in env.faults && env.adapter
    && match FindRef(db.intents, Trim(input.reference))
       case None => !mustExist
       case Some(_) => Trim(input.providerRef) != "" || LookupAttempt !in env.faults
  }

  /** The status an intent has after an answer: a refund status gives way to a refund status only. */
  function Merged(current: Status, incoming: Status): Status {
    if incoming == Unset || (Refunds(current) && !Refunds(incoming)) then current else incoming
  }

  /** The answer changes the status, so a write is due. */
  predicate StatusDue(intent: Intent, env: P.Env) {
    !env.answer.failed && Merged(intent.status, env.answer.status) != intent.status
  }

  /** A status write is due and reports an error. */
  predicate StatusLost(intent: Intent, env: P.Env) {
    StatusDue(intent, env) && (FinalUpsert in env.faults || FinalReload in env.faults)
  }

  /** A status check is stored: its insert works and no due status write failed before it. */
  predicate Checked(intent: Intent, env: P.Env) {
    InsertCheck !in env.faults && !StatusLost(intent, env)
  }

  /** What an inquiry about intent k leaves: the merged status when it is due and its write works, and one
      status check with the provider's status and the reference it was asked about. */
  predicate InquiryLeaves(db: Db, after: Db, k: nat, provider: string, env: P.Env, resolved: string) {
    && k < |db.intents|
    && var intent := db.intents[k];
       var check := Check(db.nextId, intent.id, provider, env.answer.status, resolved, env.now);
       after == db.(
         intents := if StatusDue(intent, env) && FinalUpsert !in env.faults
                    then db.intents[k := intent.(status := Merged(intent.status, env.answer.status),
                                                 updatedAt := env.now)]
                    else db.intents,
         checks := if Checked(intent, env) then db.checks + [check] else db.checks,
         nextId := if Checked(intent, env) then db.nextId + 1 else db.nextId)
  }

  /** The answer about a known intent: its status before the call, whether the provider's is the same,
      whether a new one was stored, and whether everything worked. */
  predicate InquiryAnswers(intent: Intent, env: P.Env, reply: P.InquiryReply) {
    && reply.local == intent.status
    && (reply.matched <==> intent.status == env.answer.status)
    && (reply.updated <==> StatusDue(intent, env) && !StatusLost(intent, env))
    && (reply.ok <==> !env.answer.failed && Checked(intent, env))
  }

  /** Status and Reconcile, field by field. An inquiry that does not ask the provider, or knows no intent,
      changes nothing. */
  lemma InquiryExactly(db: Db, input: P.InquiryInput, env: P.Env, mustExist: bool) returns (resolved: string)
    requires Consistent(db)
    ensures var (after, reply) := P.Inquire(db, input, env, mustExist);
            if !InquiryAsked(db, input, env, mustExist) then
              after == db && !reply.ok && reply.local == Unset && !reply.matched && !reply.updated
            else
              match FindRef(db.intents, Trim(input.reference))
              case None =>
                after == db && (reply.ok <==> !env.answer.failed) && reply.local == Unset && !reply.matched &&
                !reply.updated
              case Some(k) =>
                && Chosen(db, input.providerRef, input.reference, db.intents[k].id, input.provider, resolved)
                && InquiryLeaves(db, after, k, input.provider, env, resolved)
                && InquiryAnswers(db.intents[k], env, reply)
  {
    hide Trim, Chosen, P.ProviderReference, Consistent, P.RecordInquiry, InquiryLeaves, InquiryAnswers;
    resolved := "";
    var found := FindRef(db.intents, Trim(input.reference));
    if found.Some? {
      var intent := db.intents[found.value];
      ReferenceChosen(db, input.providerRef, input.reference, Some(intent.id), input.provider, env.prefer,
                      LookupAttempt in env.faults);
      var ref := P.ProviderReference(db, input.providerRef, input.reference, Some(intent.id), input.provider,
                                     env.prefer, LookupAttempt in env.faults);
      if InquiryAsked(db, input, env, mustExist) {
        resolved := ref.value;
        InquiryAnswerExactly(db, found.value, input.provider, resolved, env);
      }
    } else {
      ReferenceChosen(db, input.providerRef, input.reference, None, input.provider, env.prefer,
                      LookupAttempt in env.faults);
    }
  }

  lemma MergedIsStored(current: Status, incoming: Status)
    ensures P.StatusUpdate(current, incoming) == (Merged(current, incoming), Merged(current, incoming) != current)
  {
  }

  lemma InquiryAnswerExactly(db: Db, k: nat, provider: string, resolved: string, env: P.Env)
    requires Consistent(db) && k < |db.intents| && KnownProvider(provider)
    ensures var (after, reply) := P.RecordInquiry(db, db.intents[k], provider, resolved, env);
            InquiryLeaves(db, after, k, provider, env, resolved) && InquiryAnswers(db.intents[k], env, reply)
  {
    hide Consistent, SetStatus, Merged, P.StatusUpdate, AddCheck;
    KnownIntent(db, k);
    var intent := db.intents[k];
    MergedIsStored(intent.status, env.answer.status);
    var next := P.StatusUpdate(intent.status, env.answer.status).0;
    StatusWrite(db, k, next, env.now, FinalUpsert in env.faults, FinalReload in env.faults);
    var d1 := if StatusDue(intent, env)
              then SetStatus(db, intent, next, env.now, FinalUpsert in env.faults, FinalReload in env.faults).0 else db;
    CheckInserted(db, d1, k, provider, env.answer.status, resolved, env.now);
  }

  lemma CheckInserted(db: Db, d1: Db, k: nat, provider: string, status: Status, resolved: string, now: int)
    requires k < |db.intents| && KnownProvider(provider)
    requires |d1.intents| == |db.intents| && d1.intents[k].id == db.intents[k].id
    ensures var (after, r) := AddCheck(d1, db.intents[k].id, provider, status, resolved, now);
            && r.Ok?
            && after == d1.(checks := d1.checks + [Check(d1.nextId, db.intents[k].id, provider, status, resolved, now)],
                            nextId := d1.nextId + 1)
  {
    assert d1.intents[k].id == db.intents[k].id;
  }

  // ---- Create ----

  predicate CreateAsked(input: P.CreateInput, env: P.Env) {
    KnownProvider(input.provider) && input.validEnvironment && Trim(input.externalRef) != "" && input.amount > 0 &&
    input.acceptable && env.adapter
  }

  /** The intents after one write of the call's row: its reference's row overwritten with its id kept, or a
      new row with the next id. */
  function RowPut(db: Db, input: P.CreateInput, status: Status, now: int): seq<Intent> {
    match FindRef(db.intents, Trim(input.externalRef))
    case Some(k) =>
      db.intents[k := Intent(db.intents[k].id, Trim(input.externalRef), input.provider, input.amount, input.currency,
                             status, input.metadata, now)]
    case None =>
      db.intents + [Intent(db.nextId, Trim(input.externalRef), input.provider, input.amount, input.currency, status,
                           input.metadata, now)]
  }

  /** The id of the call's intent, and the next free id once the row is there. */
  function RowId(db: Db, input: P.CreateInput): Id {
    match FindRef(db.intents, Trim(input.externalRef))
    case Some(k) => db.intents[k].id
    case None => db.nextId
  }

  function IdsAfterRow(db: Db, input: P.CreateInput): Id {
    if FindRef(db.intents, Trim(input.externalRef)).Some? then db.nextId else db.nextId + 1
  }

  /** The attempt row of a call, on success or error of the provider. */
  predicate AttemptRow(row: Attempt, id: Id, intentId: Id, input: P.CreateInput, env: P.Env) {
    && row.id == id && row.intentId == intentId && row.provider == input.provider && row.createdAt == env.now
    && row.status == (if env.answer.failed then Failed else env.answer.status)
    && row.providerRef == (if env.answer.failed then "" else env.answer.providerRef)
  }

  /** The provider's status is written over pending. */
  predicate CreateSettles(env: P.Env) {
    && PendingReload !in env.faults && InsertAttempt !in env.faults && !env.answer.failed
    && FinalUpsert !in env.faults
  }

  /** Create, field by field. A call that is refused, or whose first write fails, changes nothing. Otherwise
      the intent's row carries the caller's provider, amount, currency and metadata, and is pending unless
      every step up to the last write works; one attempt is appended when the first write is confirmed and
      the insert works. Nothing else changes. It succeeds exactly when no step fails. */
  lemma CreateExactly(db: Db, input: P.CreateInput, env: P.Env) returns (attempt: Attempt)
    requires Consistent(db)
    ensures P.Create(db, input, env).1 <==>
              CreateAsked(input, env) && PendingUpsert !in env.faults && CreateSettles(env) &&
              FinalReload !in env.faults
    ensures var after := P.Create(db, input, env).0;
            if !CreateAsked(input, env) || PendingUpsert in env.faults then after == db
            else
              var tried := PendingReload !in env.faults && InsertAttempt !in env.faults;
              var next := IdsAfterRow(db, input);
              && AttemptRow(attempt, next, RowId(db, input), input, env)
              && after == db.(
                   intents := RowPut(db, input, if CreateSettles(env) then env.answer.status else Pending, env.now),
                   attempts := if tried then db.attempts + [attempt] else db.attempts,
                   nextId := if tried then next + 1 else next)
  {
    hide Trim, Consistent, TryUpsert, AddAttempt;
    var next, id := IdsAfterRow(db, input), RowId(db, input);
    attempt := if env.answer.failed then Attempt(next, id, input.provider, Failed, "", env.now)
               else Attempt(next, id, input.provider, env.answer.status, env.answer.providerRef, env.now);
    if CreateAsked(input, env) {
      FirstWrite(db, input, env);
      var d1 := P.CreateUpsert(db, None, input, Pending, env.now, PendingUpsert in env.faults,
                               PendingReload in env.faults).0;
      if PendingUpsert !in env.faults && PendingReload !in env.faults {
        AttemptInserted(db, d1, input, env, attempt);
        var d2 := P.CreateAttempt(d1, id, input, env).0;
        if InsertAttempt !in env.faults && !env.answer.failed {
          LastWrite(db, d2, input, env);
        }
      }
    }
  }

  /** The reference's row is found where it was put. */
  lemma RowFound(db: Db, after: Db, input: P.CreateInput, status: Status, now: int)
    requires Consistent(db) && after.intents == RowPut(db, input, status, now)
    ensures var k := FindRef(after.intents, Trim(input.externalRef));
            && k == Some(if FindRef(db.intents, Trim(input.externalRef)).Some?
                         then FindRef(db.intents, Trim(input.externalRef)).value else |db.intents|)
            && after.intents[k.value].id == RowId(db, input)
            && HasIntent(after, RowId(db, input))
  {
    hide Trim, IncreasingEvents, UniqueRefunds, Linked;
    FreshId(db);
    var ref := Trim(input.externalRef);
    var found := FindRef(db.intents, ref);
    if found.Some? {
      assert after.intents[found.value].externalRef == ref;
    } else {
      assert after.intents[|db.intents|].externalRef == ref;
    }
  }

  lemma FirstWrite(db: Db, input: P.CreateInput, env: P.Env)
    requires Consistent(db) && KnownProvider(input.provider)
    ensures var (after, r) := P.CreateUpsert(db, None, input, Pending, env.now, PendingUpsert in env.faults,
                                             PendingReload in env.faults);
            && after == (if PendingUpsert in env.faults then db
                         else db.(intents := RowPut(db, input, Pending, env.now), nextId := IdsAfterRow(db, input)))
            && (r.Ok? <==> PendingUpsert !in env.faults && PendingReload !in env.faults)
            && (r.Ok? ==> r.value == RowId(db, input))
  {
    hide Trim, IncreasingEvents, UniqueRefunds, Linked;
    FreshId(db);
  }

  lemma AttemptInserted(db: Db, d1: Db, input: P.CreateInput, env: P.Env, attempt: Attempt)
    requires Consistent(db) && KnownProvider(input.provider)
    requires d1 == db.(intents := RowPut(db, input, Pending, env.now), nextId := IdsAfterRow(db, input))
    requires AttemptRow(attempt, d1.nextId, RowId(db, input), input, env)
    ensures var (after, r) := P.CreateAttempt(d1, RowId(db, input), input, env);
            && (r.Ok? <==> InsertAttempt !in env.faults)
            && after == if InsertAttempt in env.faults then d1
                        else d1.(attempts := d1.attempts + [attempt], nextId := d1.nextId + 1)
  {
    hide Trim, Consistent, RowPut, RowId, FindId;
    RowFound(db, d1, input, Pending, env.now);
  }

  lemma LastWrite(db: Db, d2: Db, input: P.CreateInput, env: P.Env)
    requires Consistent(db) && KnownProvider(input.provider)
    requires d2.intents == RowPut(db, input, Pending, env.now)
    ensures var (after, r) := P.CreateUpsert(d2, Some(RowId(db, input)), input, env.answer.status, env.now,
                                             FinalUpsert in env.faults, FinalReload in env.faults);
            && (r.Ok? <==> FinalUpsert !in env.faults && FinalReload !in env.faults)
            && after == if FinalUpsert in env.faults then d2
                        else d2.(intents := RowPut(db, input, env.answer.status, env.now))
  {
    hide Trim, Consistent, HasIntent, RowId;
    RowFound(db, d2, input, Pending, env.now);
    var ref := Trim(input.externalRef);
    var k := FindRef(d2.intents, ref).value;
    var row := Intent(RowId(db, input), ref, input.provider, input.amount, input.currency, env.answer.status,
                      input.metadata, env.now);
    assert d2.intents[k := row] == RowPut(db, input, env.answer.status, env.now) by {
      RowPutTwice(db, input, Pending, env.answer.status, env.now);
    }
  }

  lemma RowPutTwice(db: Db, input: P.CreateInput, s1: Status, s2: Status, now: int)
    ensures var found := FindRef(db.intents, Trim(input.externalRef));
            var k := if found.Some? then found.value else |db.intents|;
            k < |RowPut(db, input, s1, now)| &&
            RowPut(db, input, s1, now)[k := Intent(RowId(db, input), Trim(input.externalRef), input.provider,
                                                   input.amount, input.currency, s2, input.metadata, now)] ==
            RowPut(db, input, s2, now)
  {
    hide Trim;
  }
}
