/** The webhook service: processing one delivery step by step over the store and the forwarder. */
module WebhookService {
  import opened Text
  import opened Json
  import opened Ledger
  import opened Storage
  import opened Webhooks
  import EventIds

  /** The forwarder as the service sees it: what it was handed, in order. */
  class Forwarder {
    var sent: seq<Inbound>

    constructor ()
      ensures sent == []
    {
      sent := [];
    }

    method Forward(inbound: Inbound, fails: bool) returns (ok: bool)
      modifies this
      ensures sent == old(sent) + [inbound] && ok == !fails
    {
      sent := sent + [inbound];
      ok := !fails;
    }
  }

  class Service {
    const store: Store
    const forwarder: Forwarder?

    constructor (store: Store, forwarder: Forwarder?)
      ensures this.store == store && this.forwarder == forwarder
    {
      this.store, this.forwarder := store, forwarder;
    }

    ghost function CurrentWorld(): World
      reads this, store, forwarder
    {
      World(store.Snapshot(), if forwarder == null then [] else forwarder.sent)
    }

    method RecordEvent(d: Delivery, provider: string, eventId: string, eventType: string, valid: bool,
                       processing: string)
      returns (r: Result<Id>)
      requires provider == Trim(d.provider)
      modifies store
      ensures (store.Snapshot(), r) == Record(old(store.Snapshot()), d, eventId, eventType, valid, processing)
    {
      r := store.RecordWebhookEvent(provider, eventId, eventType, valid, processing, d.now, InsertEvent in d.faults);
    }

    method IsDuplicateWebhookEvent(d: Delivery, provider: string, eventId: string) returns (r: Result<bool>)
      requires provider == Trim(d.provider)
      ensures r == if Trim(eventId) != "" && LookupEvent in d.faults then Err(Failure)
                   else Ok(IsDuplicate(store.Snapshot(), provider, eventId))
    {
      var id := Trim(eventId);
      if id == "" {
        return Ok(false);
      }
      var found := store.GetWebhookEventByProviderEventID(provider, id, d.prefer, LookupEvent in d.faults);
      match found {
        case Ok(_) => r := Ok(true);
        case Err(NoRows) => r := Ok(false);
        case Err(Failure) => r := Err(Failure);
      }
    }

    method ReconcileRefundEvent(d: Delivery, provider: string, event: ParsedEvent, payload: Option<Json>)
      returns (r: Result<string>)
      requires provider == Trim(d.provider)
      modifies store
      ensures (store.Snapshot(), r) == ReconcileRefund(old(store.Snapshot()), d, event, payload)
    {
      if event.status == Unset {
        return Ok("unmatched");
      }
      var identifiers := EventIds.RefundWebhookIdentifiers(event.paymentRef, event.eventId);
      if |identifiers| == 0 {
        return Ok("unmatched");
      }
      var settled := store.ReconcileRefundByProviderIdentifiers(provider, identifiers, event.status, payload,
                                                                d.now, d.prefer, d.faults);
      match settled {
        case Ok(_) => r := Ok("reconciled");
        case Err(NoRows) => r := Ok("unmatched");
        case Err(Failure) => r := Err(Failure);
      }
    }

    method ReconcilePaymentIntent(d: Delivery, provider: string, event: ParsedEvent, payload: Option<Json>)
      returns (r: Result<string>)
      requires provider == Trim(d.provider)
      modifies store
      ensures (store.Snapshot(), r) == ReconcileEvent(old(store.Snapshot()), d, event, payload)
    {
      hide Trim, IsRefundEvent, Upsert;
      if IsRefundEvent(event.eventType) {
        r := ReconcileRefundEvent(d, provider, event, payload);
        return;
      }
      var reference := Trim(event.paymentRef);
      if reference == "" {
        return Ok("unmatched");
      }
      var found := store.GetPaymentIntentByExternalRef(reference, LookupIntent in d.faults);
      match found {
        case Err(NoRows) => return Ok("unmatched");
        case Err(Failure) => return Err(Failure);
        case Ok(_) =>
      }
      var intent := found.value;
      if intent.provider != provider {
        return Ok("unmatched");
      }
      if intent.status == event.status {
        return Ok("duplicate");
      }
      var saved := store.UpsertPaymentIntent(Some(intent.id), intent.externalRef, intent.provider, intent.amount,
                                             intent.currency, event.status, intent.metadata, d.now,
                                             FinalUpsert in d.faults, FinalReload in d.faults);
      r := if saved.Ok? then Ok("reconciled") else Err(Failure);
    }

    /** The tail shared by every delivery that is accepted. */
    method RecordThenForward(d: Delivery, provider: string, eventId: string, eventType: string, valid: bool,
                             processing: string, forwardFails: bool)
      returns (reply: Reply)
      requires provider == Trim(d.provider) && d.forwards == (forwarder != null)
      modifies store, forwarder
      ensures (CurrentWorld(), reply) == RecordAndForward(old(CurrentWorld()), d, eventId, eventType, valid, processing)
    {
      var recorded := RecordEvent(d, provider, eventId, eventType, valid, processing);
      if recorded.Err? {
        return Reply(500, None);
      }
      if forwarder != null {
        var ok := forwarder.Forward(Inbound(recorded.value, provider), forwardFails);
        if !ok {
          return Reply(202, Some(recorded.value));
        }
      }
      return Reply(202, Some(recorded.value));
    }

    method RecordAndAnswer(d: Delivery, provider: string, event: ParsedEvent, processing: string, code: int)
      returns (reply: Reply)
      requires provider == Trim(d.provider)
      modifies store
      ensures (CurrentWorld(), reply) == RecordOnly(old(CurrentWorld()), d, event.eventId, event.eventType,
                                                    processing, code)
    {
      var recorded := RecordEvent(d, provider, event.eventId, event.eventType, true, processing);
      reply := if recorded.Err? then Reply(500, None) else Reply(code, Some(recorded.value));
    }

    method Process(d: Delivery, forwardFails: bool) returns (reply: Reply)
      requires d.forwards == (forwarder != null)
      modifies store, forwarder
      ensures (CurrentWorld(), reply) == Webhooks.Process(old(CurrentWorld()), d)
    {
      hide Trim, Record, ReconcileEvent, IsDuplicate;
      var provider := Trim(d.provider);
      if provider == "" {
        return Reply(400, None);
      }
      match d.handling {
        case NoHandler =>
          reply := RecordThenForward(d, provider, "", "unknown", false, "received", forwardFails);
        case Rejected =>
          var _ := RecordEvent(d, provider, "", "verification_failed", false, "rejected");
          return Reply(400, None);
        case Unparsed =>
          reply := RecordAndAnswer(d, provider, ParsedEvent("", "parse_error", "", Unset), "parse_failed", 202);
        case Parsed(event, payload) =>
          var duplicate := IsDuplicateWebhookEvent(d, provider, event.eventId);
          if duplicate.Err? {
            reply := RecordAndAnswer(d, provider, event, "duplicate_lookup_failed", 500);
            return;
          }
          if duplicate.value {
            reply := RecordAndAnswer(d, provider, event, "duplicate", 202);
            return;
          }
          var reconciled := ReconcilePaymentIntent(d, provider, event, payload);
          if reconciled.Err? {
            reply := RecordAndAnswer(d, provider, event, "reconcile_failed", 500);
            return;
          }
          reply := RecordThenForward(d, provider, event.eventId, event.eventType, true, reconciled.value, forwardFails);
      }
    }
  }
}
