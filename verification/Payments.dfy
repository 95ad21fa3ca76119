/** The payment service's four operations, as what they do to the tables. The provider is an oracle:
    each call comes with the answer the adapter would give and the store operations that would fail. */
module Payments {
  import opened Text
  import opened Json
  import opened Ledger

  /** `failed` is the adapter's error; `request` and `response` are the JSON the service stores. */
  datatype Answer = Answer(failed: bool, status: Status, providerRef: string, request: Json, response: Json)

  /** What happens around a call: the time, whether an adapter is configured, its answer, the row the
      database favours among equals, and the failing store operations. */
  datatype Env = Env(now: int, adapter: bool, answer: Answer, prefer: nat, faults: set<Point>)

  datatype CreateInput = CreateInput(
    provider: string, validEnvironment: bool, externalRef: string, amount: int, currency: string,
    acceptable: bool, metadata: string)

  datatype InquiryInput = InquiryInput(
    provider: string, validEnvironment: bool, reference: string, providerRef: string)

  datatype RefundInput = RefundInput(
    provider: string, validEnvironment: bool, reference: string, providerRef: string, amount: int)

  // ---- Status merging ----

  predicate ShouldPreserveRefundStatus(current: Status, incoming: Status) {
    IsRefundStatus(current) && !IsRefundStatus(incoming)
  }

  /** The status to store after a provider inquiry, and whether to store it. */
  function StatusUpdate(current: Status, incoming: Status): (Status, bool) {
    if incoming == Unset || ShouldPreserveRefundStatus(current, incoming) then (current, false)
    else (incoming, current != incoming)
  }

  // ---- Create ----

  predicate CreateAccepted(input: CreateInput) {
    input.provider in PROVIDERS && input.validEnvironment && Trim(input.externalRef) != "" &&
    input.amount > 0 && input.acceptable
  }

  /** Store the intent as pending, ask the provider, store the attempt, store the answered status. */
  function Create(db: Db, input: CreateInput, env: Env): (Db, bool) {
    if !CreateAccepted(input) || !env.adapter then (db, false)
    else
      var (d1, r1) := CreateUpsert(db, None, input, Pending, env.now, PendingUpsert in env.faults,
                                   PendingReload in env.faults);
      if r1.Err? then (d1, false)
      else
        var (d2, r2) := CreateAttempt(d1, r1.value, input, env);
        if env.answer.failed || r2.Err? then (d2, false)
        else
          var (d3, r3) := CreateUpsert(d2, Some(r1.value), input, env.answer.status, env.now,
                                       FinalUpsert in env.faults, FinalReload in env.faults);
          (d3, r3.Ok?)
  }

  function CreateUpsert(db: Db, id: Option<Id>, input: CreateInput, status: Status, now: int,
                        execFails: bool, reloadFails: bool): (Db, Result<Id>) {
    TryUpsert(db, id, Trim(input.externalRef), input.provider, input.amount, input.currency, status,
              input.metadata, now, execFails, reloadFails)
  }

  function CreateAttempt(db: Db, intentId: Id, input: CreateInput, env: Env): (Db, Result<Id>) {
    if InsertAttempt in env.faults then (db, Err(Failure))
    else if env.answer.failed then AddAttempt(db, intentId, input.provider, Failed, "", env.now)
    else AddAttempt(db, intentId, input.provider, env.answer.status, env.answer.providerRef, env.now)
  }

  // ---- Status and Reconcile ----

  /** The provider's own reference: the caller's, else the latest attempt's, else the fallback. */
  function ProviderReference(db: Db, explicit: string, fallback: string, intent: Option<Id>,
                             provider: string, prefer: nat, lookupFails: bool): Result<string> {
    if Trim(explicit) != "" then Ok(Trim(explicit))
    else if intent.None? then Ok(Trim(fallback))
    else if lookupFails then Err(Failure)
    else
      match LatestAttempt(db, intent.value, provider, prefer)
      case Some(k) =>
        var stored := Trim(db.attempts[k].providerRef);
        Ok(if stored != "" then stored else Trim(fallback))
      case None => Ok(Trim(fallback))
  }

  /** `updated` tells whether a new status was stored without error. */
  datatype InquiryReply = InquiryReply(ok: bool, local: Status, matched: bool, updated: bool)

  const REFUSED := InquiryReply(false, Unset, false, false)

  predicate InquiryAccepted(input: InquiryInput) {
    input.provider in PROVIDERS && input.validEnvironment && Trim(input.reference) != ""
  }

  /** What an inquiry stores about a known intent once the provider has answered. */
  function RecordInquiry(db: Db, intent: Intent, provider: string, providerRef: string, env: Env): (Db, InquiryReply) {
    var answer := env.answer;
    var matched := intent.status == answer.status;
    if answer.failed then
      (InquiryCheck(db, intent, provider, providerRef, env).0, InquiryReply(false, intent.status, matched, false))
    else
      var (next, changed) := StatusUpdate(intent.status, answer.status);
      var (d1, r1) := if changed
                      then SetStatus(db, intent, next, env.now, FinalUpsert in env.faults, FinalReload in env.faults)
                      else (db, Ok(intent.id));
      if r1.Err? then (d1, InquiryReply(false, intent.status, matched, false))
      else
        var (d2, r2) := InquiryCheck(d1, intent, provider, providerRef, env);
        (d2, InquiryReply(r2.Ok?, intent.status, matched, changed))
  }

  function InquiryCheck(db: Db, intent: Intent, provider: string, providerRef: string, env: Env): (Db, Result<Id>) {
    if InsertCheck in env.faults then (db, Err(Failure))
    else AddCheck(db, intent.id, provider, env.answer.status, providerRef, env.now)
  }

  /** One inquiry. Reconcile refuses an unknown reference; Status asks the provider all the same and
      stores nothing. */
  function Inquire(db: Db, input: InquiryInput, env: Env, mustExist: bool): (Db, InquiryReply) {
    if !InquiryAccepted(input) || LookupIntent in env.faults then (db, REFUSED)
    else
      var found := FindRef(db.intents, Trim(input.reference));
      if found.None? && mustExist then (db, REFUSED)
      else
        var id := if found.Some? then Some(db.intents[found.value].id) else None;
        var providerRef := ProviderReference(db, input.providerRef, input.reference, id, input.provider,
                                             env.prefer, LookupAttempt in env.faults);
        if providerRef.Err? || !env.adapter then (db, REFUSED)
        else if found.None? then (db, InquiryReply(!env.answer.failed, Unset, false, false))
        else RecordInquiry(db, db.intents[found.value], input.provider, providerRef.value, env)
  }

  // ---- Refund ----

  /** The status the refund row gets: failed when the adapter fails, pending when it names none. */
  function RefundRowStatus(answer: Answer): Status {
    if answer.failed then Failed else if answer.status == Unset then Pending else answer.status
  }

  function RecordRefundAnswer(db: Db, intent: Intent, input: RefundInput, providerRef: string, env: Env): (Db, bool) {
    var answer := env.answer;
    var stored := if Trim(answer.providerRef) != "" then Trim(answer.providerRef) else providerRef;
    var amount := if input.amount == 0 then intent.amount else input.amount;
    var (d1, r1) := if InsertRefund in env.faults then (db, Err(Failure))
                    else AddRefund(db, intent.id, input.provider, amount, RefundRowStatus(answer),
                                   answer.request, answer.response, stored, env.now);
    if r1.Err? || answer.failed then (d1, false)
    else if !IsRefundStatus(answer.status) then (d1, true)
    else
      var (d2, r2) := SetStatus(d1, intent, answer.status, env.now, FinalUpsert in env.faults,
                                FinalReload in env.faults);
      (d2, r2.Ok?)
  }

  predicate RefundAccepted(input: RefundInput) {
    input.provider in PROVIDERS && input.validEnvironment && Trim(input.reference) != "" && input.amount >= 0
  }

  function Refund(db: Db, input: RefundInput, env: Env): (Db, bool) {
    if !RefundAccepted(input) || LookupIntent in env.faults then (db, false)
    else
      match FindRef(db.intents, Trim(input.reference))
      case None => (db, false)
      case Some(k) =>
        var intent := db.intents[k];
        var providerRef := ProviderReference(db, input.providerRef, intent.externalRef, Some(intent.id),
                                             input.provider, env.prefer, LookupAttempt in env.faults);
        if providerRef.Err? || !env.adapter then (db, false)
        else RecordRefundAnswer(db, intent, input, providerRef.value, env)
  }
}
