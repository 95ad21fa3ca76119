/** The payment service: the four operations step by step over the store. */
module PaymentService {
  import opened Text
  import opened Json
  import opened Ledger
  import opened Storage
  import opened Payments

  class Service {
    const store: Store

    constructor (store: Store)
      ensures this.store == store
    {
      this.store := store;
    }

    method ResolveProviderReference(explicit: string, fallback: string, intent: Option<Id>, provider: string,
                                    prefer: nat, lookupFails: bool)
      returns (r: Result<string>)
      ensures r == ProviderReference(store.Snapshot(), explicit, fallback, intent, provider, prefer, lookupFails)
    {
      var providerRef := Trim(explicit);
      if providerRef == "" && intent.Some? {
        var attempt := store.GetLatestPaymentAttemptByIntent(intent.value, provider, prefer, lookupFails);
        match attempt {
          case Ok(row) => providerRef := Trim(row.providerRef);
          case Err(NoRows) =>
          case Err(Failure) => return Err(Failure);
        }
      }
      if providerRef == "" {
        providerRef := Trim(fallback);
      }
      r := Ok(providerRef);
    }

    method Create(input: CreateInput, env: Env) returns (ok: bool)
      modifies store
      ensures (store.Snapshot(), ok) == Payments.Create(old(store.Snapshot()), input, env)
    {
      hide Trim, Upsert;
      if !CreateAccepted(input) || !env.adapter {
        return false;
      }
      var reference := Trim(input.externalRef);
      var intent := store.UpsertPaymentIntent(None, reference, input.provider, input.amount, input.currency, Pending,
                                              input.metadata, env.now, PendingUpsert in env.faults,
                                              PendingReload in env.faults);
      if intent.Err? {
        return false;
      }
      if env.answer.failed {
        var _ := store.RecordPaymentAttempt(intent.value, input.provider, Failed, "", env.now,
                                            InsertAttempt in env.faults);
        return false;
      }
      var attempt := store.RecordPaymentAttempt(intent.value, input.provider, env.answer.status, env.answer.providerRef,
                                                env.now, InsertAttempt in env.faults);
      if attempt.Err? {
        return false;
      }
      var saved := store.UpsertPaymentIntent(Some(intent.value), reference, input.provider, input.amount,
                                             input.currency, env.answer.status, input.metadata, env.now,
                                             FinalUpsert in env.faults, FinalReload in env.faults);
      ok := saved.Ok?;
    }

    method Status(input: InquiryInput, env: Env) returns (ok: bool)
      modifies store
      ensures var (after, reply) := Inquire(old(store.Snapshot()), input, env, false);
              store.Snapshot() == after && ok == reply.ok
    {
      hide Trim, Upsert, AddCheck, ProviderReference;
      if !InquiryAccepted(input) {
        return false;
      }
      var found := store.GetPaymentIntentByExternalRef(Trim(input.reference), LookupIntent in env.faults);
      if found == Err(Failure) {
        return false;
      }
      var id := if found.Ok? then Some(found.value.id) else None;
      var providerRef := ResolveProviderReference(input.providerRef, input.reference, id, input.provider,
                                                  env.prefer, LookupAttempt in env.faults);
      if providerRef.Err? || !env.adapter {
        return false;
      }
      var answer := env.answer;
      if answer.failed {
        if found.Ok? {
          var _ := store.RecordPaymentStatusCheck(found.value.id, input.provider, answer.status, providerRef.value,
                                                  env.now, InsertCheck in env.faults);
        }
        return false;
      }
      if found.Ok? {
        var intent := found.value;
        var (nextStatus, shouldUpdate) := StatusUpdate(intent.status, answer.status);
        if shouldUpdate {
          var saved := store.UpsertPaymentIntent(Some(intent.id), intent.externalRef, intent.provider, intent.amount,
                                                 intent.currency, nextStatus, intent.metadata, env.now,
                                                 FinalUpsert in env.faults, FinalReload in env.faults);
          if saved.Err? {
            return false;
          }
        }
        var check := store.RecordPaymentStatusCheck(intent.id, input.provider, answer.status, providerRef.value,
                                                    env.now, InsertCheck in env.faults);
        if check.Err? {
          return false;
        }
      }
      return true;
    }

    method Reconcile(input: InquiryInput, env: Env) returns (reply: InquiryReply)
      modifies store
      ensures (store.Snapshot(), reply) == Inquire(old(store.Snapshot()), input, env, true)
    {
      hide Trim, Upsert, AddCheck, ProviderReference;
      if !InquiryAccepted(input) {
        return REFUSED;
      }
      var found := store.GetPaymentIntentByExternalRef(Trim(input.reference), LookupIntent in env.faults);
      if found.Err? {
        return REFUSED;
      }
      var intent := found.value;
      SameFallback(store.Snapshot(), input.providerRef, input.reference, intent, input.provider, env);
      var providerRef := ResolveProviderReference(input.providerRef, intent.externalRef, Some(intent.id),
                                                  input.provider, env.prefer, LookupAttempt in env.faults);
      if providerRef.Err? || !env.adapter {
        return REFUSED;
      }
      var answer := env.answer;
      var matched := intent.status == answer.status;
      reply := InquiryReply(false, intent.status, matched, false);
      if answer.failed {
        var _ := store.RecordPaymentStatusCheck(intent.id, input.provider, answer.status, providerRef.value,
                                                env.now, InsertCheck in env.faults);
        return;
      }
      var (nextStatus, shouldUpdate) := StatusUpdate(intent.status, answer.status);
      if !matched && shouldUpdate {
        var saved := store.UpsertPaymentIntent(Some(intent.id), intent.externalRef, intent.provider, intent.amount,
                                               intent.currency, nextStatus, intent.metadata, env.now,
                                               FinalUpsert in env.faults, FinalReload in env.faults);
        if saved.Err? {
          return;
        }
        reply := reply.(updated := true);
      }
      var check := store.RecordPaymentStatusCheck(intent.id, input.provider, answer.status, providerRef.value,
                                                  env.now, InsertCheck in env.faults);
      reply := reply.(ok := check.Ok?);
    }

    method Refund(input: RefundInput, env: Env) returns (ok: bool)
      modifies store
      ensures (store.Snapshot(), ok) == Payments.Refund(old(store.Snapshot()), input, env)
    {
      hide Trim, Payments.RecordRefundAnswer, ProviderReference;
      if !RefundAccepted(input) {
        return false;
      }
      var found := store.GetPaymentIntentByExternalRef(Trim(input.reference), LookupIntent in env.faults);
      if found.Err? {
        return false;
      }
      var intent := found.value;
      var providerRef := ResolveProviderReference(input.providerRef, intent.externalRef, Some(intent.id),
                                                  input.provider, env.prefer, LookupAttempt in env.faults);
      if providerRef.Err? || !env.adapter {
        return false;
      }
      ok := RecordRefundAnswer(intent, input, providerRef.value, env);
    }

    /** What follows the provider's answer: one refund row, then the intent for a refund status. */
    method RecordRefundAnswer(intent: Intent, input: RefundInput, providerRef: string, env: Env) returns (ok: bool)
      modifies store
      ensures (store.Snapshot(), ok) == Payments.RecordRefundAnswer(old(store.Snapshot()), intent, input, providerRef,
                                                                    env)
    {
      hide Trim, Upsert, AddRefund;
      var answer := env.answer;
      var storedProviderReference := Trim(answer.providerRef);
      if storedProviderReference == "" {
        storedProviderReference := providerRef;
      }
      var recordStatus := answer.status;
      if answer.failed {
        recordStatus := Failed;
      } else if recordStatus == Unset {
        recordStatus := Pending;
      }
      var amountToRecord := input.amount;
      if amountToRecord == 0 {
        amountToRecord := intent.amount;
      }
      var row := store.RecordRefund(intent.id, input.provider, amountToRecord, recordStatus, answer.request,
                                    answer.response, storedProviderReference, env.now, InsertRefund in env.faults);
      if row.Err? || answer.failed {
        return false;
      }
      if answer.status == Refunded || answer.status == PartialRefunded {
        var saved := store.UpsertPaymentIntent(Some(intent.id), intent.externalRef, intent.provider, intent.amount,
                                               intent.currency, answer.status, intent.metadata, env.now,
                                               FinalUpsert in env.faults, FinalReload in env.faults);
        if saved.Err? {
          return false;
        }
      }
      return true;
    }
  }

  /** Falling back to the intent's reference or to the one the caller gave is the same. */
  lemma SameFallback(db: Db, explicit: string, reference: string, intent: Intent, provider: string, env: Env)
    requires intent.externalRef == Trim(reference)
    ensures ProviderReference(db, explicit, intent.externalRef, Some(intent.id), provider, env.prefer,
                              LookupAttempt in env.faults) ==
            ProviderReference(db, explicit, reference, Some(intent.id), provider, env.prefer,
                              LookupAttempt in env.faults)
  {
  }
}
