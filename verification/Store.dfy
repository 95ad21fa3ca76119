/** The SQLite store: one object whose fields are the tables, updated in place by each operation.
    A `fails` parameter says whether the database refuses the statement. */
module Storage {
  import opened Text
  import opened Json
  import opened Ledger
  import EventIds
  import RefundQuery

  class Store {
    var intents: seq<Intent>
    var attempts: seq<Attempt>
    var checks: seq<Check>
    var refunds: seq<Refund>
    var events: seq<Event>
    var nextId: Id

    ghost function Snapshot(): Db
      reads this
    {
      Db(intents, attempts, checks, refunds, events, nextId)
    }

    constructor ()
      ensures Snapshot() == EMPTY
    {
      intents, attempts, checks, refunds, events, nextId := [], [], [], [], [], 0;
    }

    method NewId() returns (id: Id)
      modifies this`nextId
      ensures id == old(nextId) && nextId == old(nextId) + 1
    {
      id := nextId;
      nextId := nextId + 1;
    }

    method GetPaymentIntentByExternalRef(externalRef: string, fails: bool) returns (r: Result<Intent>)
      ensures fails ==> r == Err(Failure)
      ensures !fails ==>
                match FindRef(Snapshot().intents, externalRef)
                case Some(k) => r == Ok(intents[k])
                case None => r == Err(NoRows)
    {
      if fails {
        return Err(Failure);
      }
      var k := FindRef(intents, externalRef);
      r := if k.Some? then Ok(intents[k.value]) else Err(NoRows);
    }

    method GetLatestPaymentAttemptByIntent(intentId: Id, provider: string, prefer: nat, fails: bool)
      returns (r: Result<Attempt>)
      ensures fails ==> r == Err(Failure)
      ensures !fails ==>
                match LatestAttempt(Snapshot(), intentId, provider, prefer)
                case Some(k) => k < |attempts| && r == Ok(attempts[k])
                case None => r == Err(NoRows)
    {
      if fails {
        return Err(Failure);
      }
      var k := Latest(attempts, (a: Attempt) => a.intentId == intentId && a.provider == provider,
                      (a: Attempt) => a.createdAt, prefer);
      r := if k.Some? then Ok(attempts[k.value]) else Err(NoRows);
      assert LatestAttempt(Snapshot(), intentId, provider, prefer) == k;
    }

    /** The row of the provider with this id that was received last; among equal times the database may
        return any. */
    method GetWebhookEventByProviderEventID(provider: string, eventId: string, prefer: nat, fails: bool)
      returns (r: Result<Event>)
      ensures fails ==> r == Err(Failure)
      ensures !fails ==> (r.Ok? <==> HasEvent(Snapshot(), provider, eventId)) && (r.Ok? || r == Err(NoRows))
      ensures r.Ok? ==> r.value in events && r.value.provider == provider && r.value.eventId == eventId
      ensures r.Ok? ==> forall e <- events | e.provider == provider && e.eventId == eventId ::
                          e.receivedAt <= r.value.receivedAt
    {
      if fails {
        return Err(Failure);
      }
      var k := Latest(events, (e: Event) => eventId != "" && e.provider == provider && e.eventId == eventId,
                      (e: Event) => e.receivedAt, prefer);
      r := if k.Some? then Ok(events[k.value]) else Err(NoRows);
      assert k.Some? ==> events[k.value] in events;
    }

    /** Insert or overwrite, then read the id back with a second query. */
    method UpsertPaymentIntent(id: Option<Id>, externalRef: string, provider: string, amount: int, currency: string,
                               status: Status, metadata: string, now: int, execFails: bool, reloadFails: bool)
      returns (r: Result<Id>)
      modifies this
      ensures (Snapshot(), r) == TryUpsert(old(Snapshot()), id, externalRef, provider, amount, currency, status,
                                           metadata, now, execFails, reloadFails)
    {
      if execFails || provider !in PROVIDERS {
        return Err(Failure);
      }
      var k := FindRef(intents, externalRef);
      var saved;
      if k.Some? {
        var row := intents[k.value];
        intents := intents[k.value := row.(provider := provider, amount := amount, currency := currency,
                                           status := status, metadata := metadata, updatedAt := now)];
        saved := row.id;
      } else {
        saved := if id.Some? then id.value else nextId;
        if FindId(intents, saved).Some? {
          return Err(Failure);
        }
        intents := intents + [Intent(saved, externalRef, provider, amount, currency, status, metadata, now)];
        if nextId <= saved {
          nextId := saved + 1;
        }
      }
      r := if reloadFails then Err(Failure) else Ok(saved);
    }

    method RecordPaymentAttempt(intentId: Id, provider: string, status: Status, providerRef: string, now: int,
                                fails: bool)
      returns (r: Result<Id>)
      modifies this
      ensures (Snapshot(), r) == if fails then (old(Snapshot()), Err(Failure))
                                 else AddAttempt(old(Snapshot()), intentId, provider, status, providerRef, now)
    {
      if fails || provider !in PROVIDERS || FindId(intents, intentId).None? {
        return Err(Failure);
      }
      var id := NewId();
      attempts := attempts + [Attempt(id, intentId, provider, status, providerRef, now)];
      r := Ok(id);
    }

    method RecordPaymentStatusCheck(intentId: Id, provider: string, status: Status, providerRef: string, now: int,
                                    fails: bool)
      returns (r: Result<Id>)
      modifies this
      ensures (Snapshot(), r) == if fails then (old(Snapshot()), Err(Failure))
                                 else AddCheck(old(Snapshot()), intentId, provider, status, providerRef, now)
    {
      if fails || provider !in PROVIDERS || FindId(intents, intentId).None? {
        return Err(Failure);
      }
      var id := NewId();
      checks := checks + [Check(id, intentId, provider, status, providerRef, now)];
      r := Ok(id);
    }

    method RecordRefund(intentId: Id, provider: string, amount: int, status: Status, request: Json, response: Json,
                        providerRef: string, now: int, fails: bool)
      returns (r: Result<Id>)
      modifies this
      ensures (Snapshot(), r) == if fails then (old(Snapshot()), Err(Failure))
                                 else AddRefund(old(Snapshot()), intentId, provider, amount, status, request,
                                                response, providerRef, now)
    {
      var stored := if status == Unset then Pending else status;
      if fails || provider !in PROVIDERS || FindId(intents, intentId).None? {
        return Err(Failure);
      }
      var id := NewId();
      refunds := refunds + [Refund(id, intentId, provider, amount, stored, request, response, providerRef, now, now)];
      r := Ok(id);
    }

    method RecordWebhookEvent(provider: string, eventId: string, eventType: string, signatureValid: bool,
                              processing: string, now: int, fails: bool)
      returns (r: Result<Id>)
      modifies this
      ensures (Snapshot(), r) == if fails then (old(Snapshot()), Err(Failure))
                                 else AddEvent(old(Snapshot()), provider, eventId, eventType, signatureValid,
                                               processing, now)
    {
      if fails || provider !in PROVIDERS {
        return Err(Failure);
      }
      var kind := if eventType == "" then "unknown" else eventType;
      var state := if processing == "" then "received" else processing;
      var id := NewId();
      events := events + [Event(id, provider, eventId, kind, signatureValid, state, now)];
      r := Ok(id);
    }

    /** The generated query, run with its arguments bound. */
    method SelectRefundRow(provider: string, cleaned: seq<string>, prefer: nat) returns (k: Option<nat>)
      ensures k == Latest(refunds, RefundQuery.Finder(provider, cleaned), RefundQuery.CreationKey, prefer)
    {
      hide RefundQuery.ClauseFinder, RefundQuery.Finder, RefundQuery.Clauses, Join, RefundQuery.Repeated;
      var clause, args := RefundQuery.RefundIdentifierMatchClause(cleaned);
      k := Latest(refunds, RefundQuery.ClauseFinder(provider, |cleaned|, args), RefundQuery.CreationKey, prefer);
      RefundQuery.SameSelection(provider, cleaned, refunds, prefer);
    }

    /** The statements of the reconciliation transaction. They write into the tables one after the
        other; when one fails, the writes before it are still there and `committed` is false. */
    method SettleInTransaction(provider: string, cleaned: seq<string>, status: Status, response: Option<Json>,
                               now: int, prefer: nat, faults: set<Point>)
      returns (r: Result<Id>, committed: bool)
      requires BeginTx !in faults
      modifies this`refunds, this`intents
      ensures committed <==> r.Ok?
      ensures var (after, outcome) := RefundQuery.SettleLatest(old(Snapshot()), RefundQuery.Finder(provider, cleaned),
                                                               status, response, now, prefer, faults);
              r == outcome && (committed ==> Snapshot() == after)
      ensures var found := Latest(old(refunds), RefundQuery.Finder(provider, cleaned), RefundQuery.CreationKey, prefer);
              Snapshot() == if SelectRefund in faults || found.None? then old(Snapshot())
                            else RefundQuery.Written(old(Snapshot()), found.value, status, response, now, faults)
    {
      hide RefundQuery.Written, RefundQuery.Finder, RefundQuery.SettleRow, Latest;
      if SelectRefund in faults {
        return Err(Failure), false;
      }
      var found := SelectRefundRow(provider, cleaned, prefer);
      if found.None? {
        return Err(NoRows), false;
      }
      r, committed := WriteSettlement(found.value, status, response, now, faults);
    }

    /** The transaction's writes, for the selected refund row. */
    method WriteSettlement(k: nat, status: Status, response: Option<Json>, now: int, faults: set<Point>)
      returns (r: Result<Id>, committed: bool)
      requires k < |refunds|
      modifies this`refunds, this`intents
      ensures committed <==> r.Ok?
      ensures var (after, outcome) := RefundQuery.SettleRow(old(Snapshot()), k, status, response, now, faults);
              r == outcome && (committed ==> Snapshot() == after)
      ensures Snapshot() == RefundQuery.Written(old(Snapshot()), k, status, response, now, faults)
    {
      hide RefundQuery.Settle;
      var row := refunds[k];
      if UpdateRefund in faults {
        return Err(Failure), false;
      }
      refunds := refunds[k := RefundQuery.Settle(row, status, response, now)];
      if IsRefundStatus(status) {
        if UpdateIntent in faults {
          return Err(Failure), false;
        }
        var i := FindId(intents, row.intentId);
        if i.None? {
          return Err(NoRows), false;
        }
        intents := intents[i.value := intents[i.value].(status := status, updatedAt := now)];
      }
      if CommitTx in faults {
        return Err(Failure), false;
      }
      return Ok(row.id), true;
    }

    /** All or nothing: unless the transaction commits, the tables are rolled back. */
    method ReconcileRefundByProviderIdentifiers(provider: string, identifiers: seq<string>, status: Status,
                                                response: Option<Json>, now: int, prefer: nat, faults: set<Point>)
      returns (r: Result<Id>)
      modifies this`refunds, this`intents
      ensures (Snapshot(), r) == RefundQuery.Reconcile(old(Snapshot()), provider, identifiers, status, response, now,
                                                       prefer, faults)
    {
      var cleaned := [];
      for i := 0 to |identifiers|
        invariant unchanged(this) && cleaned == EventIds.CleanParts(identifiers[..i])
      {
        EventIds.CleanNext(identifiers, i);
        var trimmed := Trim(identifiers[i]);
        if trimmed != "" {
          cleaned := cleaned + [trimmed];
        }
      }
      assert identifiers[..|identifiers|] == identifiers;
      if |cleaned| == 0 {
        return Err(NoRows);
      }
      ghost var finds := RefundQuery.Finder(provider, cleaned);
      if BeginTx in faults {
        return Err(Failure);
      }
      var savedRefunds, savedIntents := refunds, intents;
      var committed;
      r, committed := SettleInTransaction(provider, cleaned, status, response, now, prefer, faults);
      RefundQuery.FailedUnchanged(old(Snapshot()), finds, status, response, now, prefer, faults);
      if !committed {
        refunds, intents := savedRefunds, savedIntents;
      }
    }
  }
}
