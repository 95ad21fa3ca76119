# Rute Bayar: payments, webhooks, forwarding

Rute Bayar is a payment gateway in front of several Indonesian payment providers. This project models
the parts of it that keep state or transform data, and proves what holds of them over every input and
every run.

**The ledger.** The payment service (`Create`, `Status`, `Reconcile`, `Refund`) and the webhook service
(`Process`) are steps over five tables: payment intents, attempts, status checks, refunds and webhook
events. Each exists twice. `Ledger`, `Payments`, `RefundQuery` and `Webhooks` say what an operation does
to the tables as values. The classes in `Store.dfy` (module `Storage`), `PaymentService.dfy` and
`WebhookService.dfy` do it step by step, as the program does, and every method is proved to leave exactly
the state the value says. The lemmas are about the values; `PaymentEffects` and `WebhookReplies` write out,
field by field, what each operation leaves and answers. A provider's answer is an oracle (any status, with or
without an error), and so is every failure of the store: each call comes with the set of store operations
that fail during it. `LedgerRuns` defines runs: any sequence of calls, one at a time.

**Identifiers and envelopes.** `EventIds` models the printer of webhook event ids and the function that
partly reads them back. `XenditEnvelope` models the stripping of envelopes around a Xendit webhook body
and the picking of its fields; `XenditKeys` writes out which keys say what.

**The API server's tables.** `RateLimiter` and `IdempotencyCache` are maps capped at 2000 entries, pruned
and, when still full, emptied in arbitrary order to below half (`BoundedTables`). `CreateHandler` is the
use the create and refund handlers make of the cache.

**Forwarding.** `Forwarding` is the fan-out over targets and the retry loop of one target; `EventFilters`
and `RetryPolicies` are the filter, the policy and their stored forms; `ForwardingTargets` adds and
updates targets.

Assumptions. Calls run one at a time. The clock of the API server's tables never goes back. Row ids are
fresh (a counter stands for the ids the program makes from the clock). "Latest" rows are ordered by an
abstract key, because the text the program orders by has a variable number of fraction digits; among
equal keys the database may return any row. JSON text reads back as it was written. Case folding and
header-name canonicalisation are parameters.

## What was found

Where the code does less than one might expect, the exact condition under which it does meet the property
is proved for all inputs, and a lemma shows a concrete input, or a whole family of inputs, on the failing
side.

- A payment webhook, or a `Create` on a known reference, overwrites a refunded status; and a refund row is
  stored before the intent is marked, so the two disagree if that second write fails. Refund rows and
  intents agree throughout a run if and only if every call of it is `Safe`
  (`RefundCoupling.RunCouplingExact`). Inputs: `RefundCoupling.LateSettlementUncouples`,
  `RefundCoupling.CreateAgainUncouples`, `RefundCoupling.LostRefundUncouples`.
- A webhook whose event row cannot be stored may still have changed an intent or a refund, and is then
  reconciled again when it is redelivered: after any run a delivery is reconciled if and only if the
  duplicate lookup works and no earlier delivery could write its row (`WebhookRuns.AttemptedExactly`,
  counted over runs in `WebhookRuns.EffectsExactly`). Input: `WebhookRuns.LostRowTakesEffectTwice`. Such a
  webhook is never forwarded before its row is stored, and never twice (`WebhookRuns.AtMostOnce`).
- Duplicates are looked up by the trimmed id and stored as parsed, so an id with white space at its ends is
  recognised only by a row that has the trimmed id (`WebhookRuns.RecognisedExactly`). Input:
  `WebhookRuns.PaddedIdNotRecognised`. Ids printed by `BuildWebhookEventID` have no such white space, and
  every adapter prints its ids with it.
- A provider object's id can be read back from a printed event id if and only if the event type has no
  colon or the reference is that id (`EventIds.RefundIdRoundTrip`). Input: `EventIds.ColonTypeLosesId`.
- Webhooks about different objects can print one event id, and the second is then dropped as a duplicate. Ids
  coincide if and only if their pieces between colons do (`EventIds.SameEventId`). Inputs:
  `EventIds.MidtransIdsCoincide`, `WebhookRuns.OtherOrderDropped`.
- A refund webhook replaces the stored response of the refund it settles. A refund that stores an object's id
  still does so afterwards if and only if the id is not in the response, or the webhook sends none, or the
  new response holds it in the same place (`WebhookRuns.SettledStores`); what a second webhook then does is
  `WebhookRuns.SecondWebhook`. Input: `WebhookRuns.ReplacedResponseLosesRefund`, with a field that the search
  does not look at.
- An event whose first stored row says "duplicate_lookup_failed" or "reconcile_failed" is never forwarded:
  the first delivery that stores an event is forwarded if and only if its lookup and reconciliation succeed,
  and no later one is (`WebhookRuns.ForwardsExactly`, `WebhookRuns.ForwardedExactly`).
- When two keys of a Xendit object are equal ignoring case, what the reader makes of the object can depend on
  the order in which Go visits its keys: a stripped object stays as it is when stripped again if and only if
  it is bare (`XenditEnvelope.UnwrapIdempotent`). Input: `XenditEnvelope.UnwrapMayVary`.
- Different requests can share an idempotency cache key when their parts contain colons. For creates this
  needs a colon in the idempotency key (`CreateHandler.CreateKeyCollision`,
  `CreateHandler.CreateKeyInjective`; input: `CreateHandler.CreateKeysCanCollide`). For refunds a colon-free
  idempotency key is not enough: a reference and a refund reference that both contain colons will do
  (`CreateHandler.RefundKeyCollision`, `CreateHandler.RefundKeyInjective`; input:
  `CreateHandler.RefundKeysCanCollide`).
- Filter keys that become equal after trimming compete when the filter is stored; the meaning survives if
  and only if they agree on the value (`EventFilters.StoringKeepsMeaning`). Input:
  `EventFilters.CollidingEntriesLoosen`.
- A retry policy is not always used as given: a timeout below one second is stored as zero, and a send then
  uses the ten-second default (`RetryPolicies.EffectiveAfterStorage`), and a backoff of zero is accepted but no
  send uses it (`RetryPolicies.ZeroBackoffUnused`). A valid policy is used as given if and only if all its
  fields are positive and both durations are whole seconds (`RetryPolicies.UsedAsGiven`).
- One target can take longer than n timeouts and n - 1 pauses, for n attempts, when the context is
  cancelled in the middle of a pause. The bound holds if and only if no pause is cut short
  (`Forwarding.TargetTimeBound`, `Forwarding.TargetTimeExact`). Input: `Forwarding.CancelledPauseExceeds`.

## Model

| member | source | states |
|---|---|---|
| `RefundCoupling.CouplingExact` | internal/paymentsvc/service.go:123-524 | From any consistent state in which every refunded refund row has a refunded intent: a call (any of the five, any answers, any store failures) keeps that agreement if and only if it is `Safe`, and takes no intent out of the refunded statuses if and only if it is `Sticky`; both are judged from the state before the call |
| `RefundCoupling.RunCouplingExact` | internal/paymentsvc/service.go:298-436 | Refunds and intents agree at every moment of a run if and only if every call of the run is safe |
| `RefundCoupling.OrderlyRunCoupled` | internal/webhooksvc/service.go:292-332 | In any run of Create on new references, Status, Reconcile, Refund whose intent write works, and refund webhooks, every refunded refund keeps a refunded intent, and an intent that becomes refunded never stops being so |
| `RefundCoupling.LateSettlementUncouples` | internal/webhooksvc/service.go:316-331 | The condition is needed: a payment webhook after a refund leaves a refunded refund row under an intent that is not refunded |
| `RefundCoupling.CreateAgainUncouples` | internal/paymentsvc/service.go:168-206 | The condition is needed: a Create on a refunded reference, with the provider failing, leaves a refunded refund row under a pending intent |
| `RefundCoupling.LostRefundUncouples` | internal/paymentsvc/service.go:372-420 | The condition is needed: a refund whose row is stored and whose intent write fails leaves a refunded refund row under a paid intent |
| `RefundCoupling.CreateWrites` | internal/paymentsvc/service.go:168-220 | A Create writes exactly one intent row, or none; the status it leaves is pending after any failure past the first write and the provider's status only when every step works; refunds are untouched |
| `RefundCoupling.RefundWrites` | internal/paymentsvc/service.go:358-436 | A Refund that got the provider's answer appends exactly one refund row of that intent (none if the insert fails), marked failed whenever the provider errs; the intent's row is written only for a refund status without error |
| `RefundCoupling.RefundCouples` | internal/paymentsvc/service.go:358-436 | A Refund call breaks the agreement exactly when its refund row is stored as refunded, the intent write fails, and the intent was not refunded before; it never takes an intent out of the refunded statuses |
| `RefundCoupling.InquiryCouples` | internal/paymentsvc/service.go:586-602 | Status and Reconcile never break the agreement and never take an intent out of the refunded statuses, whatever the provider answers and whatever fails |
| `RefundCoupling.SettledCoupling` | internal/storage/sqlite/refunds.go:184-208 | The reconciliation transaction cannot break the agreement, whichever status it settles |
| `RefundCoupling.PaymentWebhookWrites` | internal/webhooksvc/service.go:300-331 | A payment webhook overwrites the status of one intent, of its own provider and with a different status, or leaves intents alone; it never touches refunds |
| `RefundCoupling.ProcessTables` | internal/webhooksvc/service.go:135-199 | A delivery changes intents and refunds exactly as the one reconciliation it attempts does, and not at all when it is rejected, unparsed or held back as a duplicate |
| `PaymentEffects.RefundExactly` | internal/paymentsvc/service.go:298-436 | Refund, field by field, for every input, answer and failure: when it asks the provider and the insert works, one row is appended for the intent with the caller's provider, the caller's amount if positive and the intent's if zero, the answer's request, response and status (failed on an error, pending when unset), the answer's reference if not blank and else the one resolved before, and times now; the intent takes the answer's status exactly for a refund status without error whose write works; nothing else changes; it succeeds exactly when no due step failed and the provider did not err |
| `PaymentEffects.RefundInserted` | internal/storage/sqlite/refunds.go:14-64 | A refund row carries what is given, pending without a status, under the next id |
| `PaymentEffects.CreateExactly` | internal/paymentsvc/service.go:123-221 | Create, field by field: the row under the trimmed reference carries the caller's provider, amount, currency and metadata and keeps its id if it had one; it is pending unless every step up to the last write works, then the provider's status; one attempt of this intent is appended when the first write is confirmed and the insert works, with the provider's status and reference, or failed without reference when it errs; nothing else changes; it succeeds exactly when no step fails |
| `PaymentEffects.ReferenceChosen` | internal/paymentsvc/service.go:604-617 | The caller's reference when not blank; else that of an attempt of this intent and provider which no other exceeds in creation key, when there is one and it is not blank; else the fallback, each trimmed; it fails exactly when a lookup is needed and fails |
| `PaymentEffects.InquiryExactly` | internal/paymentsvc/service.go:223-296 | Status and Reconcile, field by field: the intent takes the merged status when the provider did not err, the status differs and the write works; one status check is appended, with the caller's provider, the provider's status and the reference it was asked about, when its insert works and no due write failed; the reply names the status before the call, whether the provider's is the same, whether a new one was stored, and whether everything worked; without an intent, or without asking the provider, nothing changes |
| `WebhookReplies.ReplyExactly` | internal/webhooksvc/service.go:70-247 | Every delivery: answered 400 exactly when no provider is named or the body is rejected, 500 exactly when otherwise the row cannot be written or the lookup or reconciliation fails, else 202; the answer carries the id of the row just added, none for 400 or without a row; that row has the provider, time, id, type, validity and processing text of its case |
| `WebhookReplies.RecordedRow` | internal/storage/sqlite/webhook_events.go:13-67 | An event row carries what is given, "unknown" without a type and "received" without a state, under the next id; it is written exactly for a known provider when the insert works |
| `WebhookReplies.PaymentOutcome` | internal/webhooksvc/service.go:292-332 | What a payment webhook comes to (unmatched, duplicate, reconciled or an error, each with its exact condition) and which status it writes |
| `WebhookReplies.RefundOutcome` | internal/webhooksvc/service.go:334-359 | What a refund webhook comes to: reconciled exactly when it names a status and an identifier, some refund is found and no step fails; unmatched exactly when it names too little or nothing is found; unless reconciled it changes nothing |
| `InquiryFolding.FoldClosedForm` | internal/paymentsvc/service.go:586-602 | Merging any sequence of answers gives the last refund status among the initial status and the answers if there is one, otherwise the last answer that says anything, otherwise the initial status |
| `InquiryFolding.InquiryRun` | internal/paymentsvc/service.go:223-296 | In any run of any calls, whatever fails, in which only inquiries change the status of an intent, that status ends as the closed form of the answers that count, whichever of Status and Reconcile asked; an answer counts when the inquiry is accepted and about the intent's reference, its lookups work, the provider does not err and the intent write works |
| `InquiryFolding.InquiryStatus` | internal/paymentsvc/service.go:438-524 | One Status or Reconcile about any reference, whatever fails, gives an intent the merged status exactly when its answer counts, and otherwise leaves it alone |
| `InquiryFolding.UndisturbedRun` | internal/paymentsvc/service.go:253-293 | In a run made up of accepted inquiries about one known reference with a working store, one check row per call is appended, in order, with the status the provider reported, the intent ends with the closed form of the successful answers, and nothing else in the database changes |
| `InquiryFolding.ClosedFormAppend` | internal/paymentsvc/service.go:593-598 | One more answer moves the closed form as the merge rule moves the status |
| `InquiryFolding.RepeatedAnswer` | internal/paymentsvc/service.go:586-591 | An answer equal to the previous one changes nothing and asks for no write |
| `WebhookRuns.AtMostOnce` | internal/webhooksvc/service.go:136-182 | For a non-empty id that trimming leaves alone, in any run and whatever fails: the event is handed to the forwarder at most once, and never once it is stored; intents and refunds are changed by no delivery once it is stored, and before that by at most one besides those whose row could not be written (the exact count is that of `WebhookRuns.EffectsExactly`) |
| `WebhookRuns.StoredExactly` | internal/webhooksvc/service.go:249-264 | After any run the event is stored if and only if it was before, or some call of the run delivered it with a row that could be written |
| `WebhookRuns.AttemptedExactly` | internal/webhooksvc/service.go:136-184 | After any run a delivery is reconciled if and only if the duplicate lookup works, the event was not stored before the run, and no earlier delivery could write its row |
| `WebhookRuns.EffectsExactly` | internal/webhooksvc/service.go:136-201 | In any run the deliveries reconciled are, in number, those with a working lookup up to and including the first whose row can be written, judged from the calls alone; the deliveries that change intents or refunds are exactly those of them that change anything |
| `WebhookRuns.LostRowTakesEffectTwice` | internal/webhooksvc/service.go:184-207 | The condition is needed: a payment webhook whose row is lost, an inquiry that brings the old status back, and the webhook again change the intent twice for one event |
| `WebhookRuns.ForwardsExactly` | internal/webhooksvc/service.go:136-231 | A delivery is handed to the forwarder if and only if its row can be written, there is a forwarder, the lookup works, the event is not stored and its reconciliation succeeds |
| `WebhookRuns.ForwardedExactly` | internal/webhooksvc/service.go:201-231 | Over any run an event not stored before is forwarded once if the first delivery that stores it is forwarded, and otherwise never |
| `WebhookRuns.AfterStoring` | internal/webhooksvc/service.go:160-182 | After a delivery that stores an event, whatever status its row carries, no later delivery of it is forwarded or changes an intent or a refund |
| `WebhookRuns.OtherOrderDropped` | internal/webhooksvc/service.go:266-290 | Once a Midtrans webhook about order "a:b" and transaction "c" is stored, one about order "a" and transaction "b:c" counts as its duplicate |
| `WebhookRuns.PrintedIdsAtMostOnce` | internal/provider/provider.go:100-108 | Every non-empty id the adapters print has that guarantee: forwarded at most once, and not at all once stored; tables changed by at most one delivery besides unrecorded ones, and by none once stored |
| `WebhookRuns.RecognisedExactly` | internal/webhooksvc/service.go:266-290 | After an event is recorded, its next delivery is recognised as a duplicate if and only if trimming leaves the id alone or a row with the trimmed id was already there |
| `WebhookRuns.PaddedIdNotRecognised` | internal/webhooksvc/service.go:266-290 | The condition is needed: from an empty log an id with a leading space is not recognised after it was recorded |
| `WebhookRuns.DeliveryEffects` | internal/webhooksvc/service.go:132-247 | A delivery of a stored event changes no intent or refund and is not forwarded; any other leaves the event stored unless its row cannot be written, and then it is not forwarded |
| `WebhookRuns.CallAccounted` | internal/webhooksvc/service.go:70-247 | Every call adds at most one event row: exactly one for a delivery of a known provider whose insert works, none otherwise; it hands over at most one webhook, and then the row just added |
| `WebhookRuns.RunAccounted` | internal/webhooksvc/service.go:201-247 | Over any run the event table grows by exactly the number of recording deliveries; every hand-over names a stored event of its provider and no event is handed over twice |
| `WebhookRuns.ReachableAccounted` | internal/webhooksvc/service.go:201-247 | From an empty database: as many event rows as recording deliveries, and every hand-over accounted for |
| `WebhookRuns.ReconcilesTheRefund` | internal/webhooksvc/service.go:334-359 | When the store works and one refund that the identifiers find is newer than all others they find, a refund event with some status settles exactly that refund, and for a refund status its intent |
| `WebhookRuns.ObjectIdFindsRefund` | internal/provider/xendit/adapter.go:450-516 | A Xendit refund whose stored request, response or provider reference holds the webhook's object id is found by the identifiers read from the webhook whenever that id can be read back (no colon in the event type, or the reference is the id; exactly then by `XenditEnvelope.ParsedRefundIdentifiers`) |
| `WebhookRuns.XenditRefundEndToEnd` | internal/webhooksvc/service.go:184-238 | From body to tables, for every body and every order in which its keys may be read, with a working store: a new, verified Xendit refund webhook with some status, about an object whose id can be read back and which a refund stores (the newest the identifiers find), settles exactly that refund and, for a refund status, its intent, is recorded as reconciled, and is handed to the forwarder under its new row |
| `WebhookRuns.RefundThenWebhook` | internal/paymentsvc/service.go:358-397 | From refund call to webhook: when a Refund call stores a Xendit refund holding an object's id, and then anything happens as long as no newer refund that the identifiers find is stored and a response holding the id is not replaced by one without it, the refund webhook about that object settles exactly the refund the call made |
| `WebhookRuns.SettledStores` | internal/storage/sqlite/refunds.go:170-182 | Settling a refund keeps a stored object id if and only if the id is not in the response, or no response was sent, or the new response holds the id in the same place |
| `WebhookRuns.SecondWebhook` | internal/webhooksvc/service.go:334-359 | Of two webhooks about one refund, as pending and then succeeded, the first settles it; the second settles it too if its identifiers still find it, as they do when the first left the id in place, and otherwise leaves the refund as it is |
| `WebhookRuns.ReplacedResponseLosesRefund` | internal/storage/sqlite/refunds.go:211-239 | The condition is needed: a webhook that names the refund only as `refund_id` replaces the response, and the id finds the refund no more |
| `LedgerRuns.RunKeeps` | migrations/0001_initial.sql:22-121 | Over any run, whatever providers answer and whatever fails: intent ids and external references stay in one-to-one correspondence and never change; every attempt, check and refund points at an existing intent; attempts, checks and events are only added; a stored refund keeps all but status, response and update time |
| `LedgerRuns.ReachableConsistent` | migrations/0001_initial.sql:22-121 | Every state reachable from an empty database has these correspondences and references |
| `LedgerRuns.ApplyKeeps` | internal/paymentsvc/service.go:123-524 | The same for each single call |
| `LedgerInvariants.UpsertShape` | internal/storage/sqlite/payments.go:179-236 | An upsert writes the row of its reference and no other; the row takes every value given (provider, amount, currency, status, metadata, time) but keeps the id of an existing row, which is returned whatever id was offered; on an error nothing changes |
| `LedgerInvariants.TryUpsertKeeps` | internal/storage/sqlite/payments.go:179-236 | With failures of either query: the write is complete or absent, identities and references survive, and the id returned is the stored one |
| `LedgerInvariants.TransactionExact` | internal/storage/sqlite/refunds.go:131-208 | All or nothing and exact: on any failure both tables are unchanged; success happens if and only if some row is found and no step fails; then one found row of greatest creation key is settled, its intent takes the status exactly for a refund status, and nothing else differs; "no rows" exactly when nothing is found |
| `LedgerInvariants.ReconcileExact` | internal/storage/sqlite/refunds.go:114-208 | The same for the identifiers as given: they are trimmed, blanks dropped, and without a usable one there are no rows |
| `LedgerInvariants.ExactKeeps` | internal/storage/sqlite/refunds.go:162-208 | Whatever the transaction does, identities, references between tables and append-only logs survive it |
| `Ledger.Latest` | internal/storage/sqlite/payments.go:51-91 | `ORDER BY created_at DESC LIMIT 1`: a hit that no other hit exceeds, and none exactly when there is no hit |
| `Ledger.LatestReachesAll` | internal/storage/sqlite/refunds.go:141-160 | Any of the newest hits can be the one returned: nothing about ties is assumed |
| `RefundQuery.SqlPlaceholders` | internal/storage/sqlite/refunds.go:241-250 | The loop builds the comma-separated placeholders, empty for counts below one |
| `RefundQuery.RefundIdentifierMatchClause` | internal/storage/sqlite/refunds.go:211-239 | The two loops build one `IN` list per searched field, joined by `OR`, and the identifiers once per field as arguments |
| `RefundQuery.ClauseBalanced` | internal/storage/sqlite/refunds.go:211-239 | For any identifiers the clause of the first f fields has exactly f times as many placeholders as identifiers, so the whole clause has 14 times as many, the number of bound arguments |
| `RefundQuery.ClauseMeansMatch` | internal/storage/sqlite/refunds.go:211-239 | With its arguments bound by position the clause holds of a row if and only if some searched field holds some identifier; only the set of identifiers matters, not order or repetition |
| `RefundQuery.SameSelection` | internal/storage/sqlite/refunds.go:141-160 | Running the generated query selects the same row as looking for the identifiers |
| `RefundQuery.FieldsExactly` | internal/storage/sqlite/refunds.go:211-239 | The 14 searched fields by name: the provider reference, three fields of the request, five of the response at its top and under `data` |
| `RefundQuery.FieldTexts` | internal/storage/sqlite/refunds.go:211-239 | The SQL written for each kind of field |
| `RefundQuery.FieldHolds` | internal/storage/sqlite/refunds.go:211-239 | What each kind of field holds of a row: a non-empty provider reference, or the text at the named place of request or response |
| `RefundQuery.FinderExactly` | internal/storage/sqlite/refunds.go:133-160 | A refund is found exactly when it is of the provider and a searched field holds an identifier |
| `RefundQuery.SettledFields` | internal/storage/sqlite/refunds.go:165-178 | Settling changes status and time, and the response when one was sent, and nothing else of the row |
| `EventIds.BuildWebhookEventID` | internal/provider/provider.go:100-108 | The loop prints the trimmed non-blank parts joined by colons |
| `EventIds.EventIdTrimStable` | internal/provider/provider.go:100-108 | A printed id is unchanged by trimming, and empty exactly when every part is blank |
| `EventIds.EventIdFlattens` | internal/provider/provider.go:100-108 | An id printed from some parts and used as one part of a longer id prints as those parts would |
| `EventIds.SameEventId` | internal/provider/provider.go:100-108 | Two lists of parts print the same id if and only if their pieces between colons are the same; for parts without colons, if and only if the cleaned parts are the same |
| `EventIds.MidtransIdsCoincide` | internal/provider/midtrans/adapter.go:586-590 | Orders "a:b" and "a" with transactions "c" and "b:c" print one id |
| `EventIds.CleanPartsSet` | internal/provider/provider.go:101-106 | The cleaned parts are exactly the non-blank parts, trimmed |
| `EventIds.RefundWebhookIdentifiers` | internal/webhooksvc/service.go:370-390 | The candidates and the loop with its `seen` set yield the specified identifiers |
| `EventIds.DistinctCleaned` | internal/webhooksvc/service.go:376-389 | The loop keeps the first occurrence of each cleaned candidate, in order |
| `EventIds.Identifiers` | internal/webhooksvc/service.go:370-390 | No identifier is listed twice, and they are exactly the cleaned candidates |
| `EventIds.IdentifiersExactly` | internal/webhooksvc/service.go:370-390 | The identifiers are the payment reference, the event id and what follows the id's first colon, trimmed, as far as not blank |
| `EventIds.RefundIdRoundTrip` | internal/webhooksvc/service.go:370-390 | An id printed from a non-blank event type and object id gives the object id back if and only if the event type has no colon (or the payment reference is that id); identifiers are trimmed, non-blank and distinct |
| `EventIds.ColonTypeLosesId` | internal/webhooksvc/service.go:370-390 | The condition is needed: with a colon in the event type the object id is not among the identifiers |
| `XenditEnvelope.XenditObjectChild` | internal/provider/xendit/adapter.go:688-703 | A child found is the object under some key equal to the one asked for ignoring case; none is found only when there is no such key or one of them holds something else; for keys distinct ignoring case there is one answer |
| `XenditEnvelope.UnwrapXenditObject` | internal/provider/xendit/adapter.go:661-686 | Terminates, and in any order of keys returns an object that the payload wraps in envelopes and at which the reader may stop; for keys distinct ignoring case the one specified |
| `XenditEnvelope.UnwrapIsTheCore` | internal/provider/xendit/adapter.go:661-686 | The result is characterised without the algorithm: every object that the payload wraps in any number of single-field or "value" envelopes and that is not itself an envelope is a possible result; when keys are distinct ignoring case it is the only one, and the specified one |
| `XenditEnvelope.UnwrapThroughEnvelopes` | internal/provider/xendit/adapter.go:661-686 | Whatever p may unwrap to, an object wrapping p in any number of envelopes may unwrap to; when keys are distinct ignoring case both unwrap to the same |
| `XenditEnvelope.UnwrapIdempotent` | internal/provider/xendit/adapter.go:661-686 | A result may be left as it is when unwrapped again, and nothing else can come of it if and only if it is bare, as it always is when keys are distinct ignoring case |
| `XenditEnvelope.UnwrapMayVary` | internal/provider/xendit/adapter.go:661-703 | The condition on keys is needed: an object with "value" and "Value" may be left as it is or opened |
| `XenditEnvelope.XenditStringFromObject` | internal/provider/xendit/adapter.go:705-733 | In any order of keys: the normalised value of some hit of the first listed key that has one, even when blank, and empty when no key has one; for keys distinct ignoring case there is one answer |
| `XenditEnvelope.FirstNonEmpty` | internal/provider/xendit/adapter.go:518-525 | The trimmed first value that is not blank; empty exactly when all are blank |
| `XenditEnvelope.ParseWebhook` | internal/provider/xendit/adapter.go:450-503 | In any order of keys the event is one the body can parse to, about the object named; for keys distinct ignoring case it is the specified one |
| `XenditEnvelope.ParsesExactly` | internal/provider/xendit/adapter.go:450-503 | Every body can parse to the specified event, and when keys are distinct ignoring case to no other |
| `XenditEnvelope.EventFrom` | internal/provider/xendit/adapter.go:463-516 | The field-picking steps, over any data object and payload and in any order of keys, give an event these can yield; for keys distinct ignoring case the specified one |
| `XenditKeys.KeysExactly` | internal/provider/xendit/adapter.go:463-516 | Every event a body can parse to, with the keys written out: which keys give type, status text, object id and reference, in which order, data object or payload first; the reference falls back to the object id, the id to the reference; the status is the provider's mapping of type and status text, in this order |
| `XenditKeys.RefundIsTheObject` | internal/provider/xendit/adapter.go:505-516 | A refund event is about the data object's `refund_id`, or without that its `id`, whatever keys of the payment stand beside it, and is printed so |
| `XenditKeys.PaymentIsTheObject` | internal/provider/xendit/adapter.go:505-516 | Any other event is about the data object's `payment_id`; its `id` counts only when all the others are missing |
| `XenditKeys.RefundBodyIsAboutTheRefund` | internal/provider/xendit/adapter_test.go:384-415 | From body to event: a refund webhook as Xendit sends it has the refund's id, the merchant's reference and the status mapped from type and status |
| `XenditKeys.BareBody` | internal/provider/xendit/adapter.go:450-461 | A body without envelopes is read as it stands, with the object under `data` |
| `XenditKeys.PickFirst` | internal/provider/xendit/adapter.go:705-718 | Picking gives the text of the first listed key that the object has |
| `XenditKeys.ValuesRead` | internal/provider/xendit/adapter.go:720-733 | Texts and numbers read trimmed, null as nothing, other values as Go prints them |
| `XenditKeys.RefundEvents` | internal/provider/xendit/adapter.go:621-624 | Refund events are those whose trimmed, lower-case type starts with "refund." or ends with ".refund" |
| `XenditKeys.RefundEventExamples` | internal/webhooksvc/service.go:361-364 | Types that are refund events and types that are not |
| `XenditEnvelope.ParseThroughEnvelopes` | internal/provider/xendit/adapter.go:450-503 | Whatever a body can parse to, it can parse to inside any number of envelopes; when keys are distinct ignoring case it parses to the same event type, reference, id and status |
| `XenditEnvelope.ParsedId` | internal/provider/xendit/adapter.go:505-516 | Whatever order the keys are read in: the parsed id, reference and type are trimmed, the type is never empty, and an event about an object has the id printed from type and object id |
| `XenditEnvelope.ParsedRefundIdentifiers` | internal/provider/xendit/adapter.go:505-516 | Whatever order the keys are read in: the parsed id is one the duplicate lookup can find again; the object's id is among the refund identifiers if and only if the event type has no colon or the reference is that id |
| `Storage.Store.UpsertPaymentIntent` | internal/storage/sqlite/payments.go:179-236 | Leaves the database and returns the id exactly as the upsert on values says, also when the second query fails |
| `Storage.Store.RecordPaymentAttempt` | internal/storage/sqlite/payments.go:238-282 | Appends one attempt of an existing intent and known provider, or changes nothing |
| `Storage.Store.RecordPaymentStatusCheck` | internal/storage/sqlite/payments.go:284-328 | Appends one status check of an existing intent and known provider, or changes nothing |
| `Storage.Store.RecordRefund` | internal/storage/sqlite/refunds.go:14-64 | Appends one refund of an existing intent and known provider, pending when no status is given, or changes nothing |
| `Storage.Store.RecordWebhookEvent` | internal/storage/sqlite/webhook_events.go:13-67 | Appends one event of a known provider, or changes nothing |
| `Storage.Store.GetPaymentIntentByExternalRef` | internal/storage/sqlite/payments.go:13-49 | The intent with the reference; "no rows" exactly when there is none and the query works |
| `Storage.Store.GetLatestPaymentAttemptByIntent` | internal/storage/sqlite/payments.go:51-91 | A newest attempt of the intent with the provider; "no rows" exactly when there is none and the query works |
| `Storage.Store.GetWebhookEventByProviderEventID` | internal/storage/sqlite/webhook_events.go:69-125 | A last-received event of the provider with the id; found exactly when the id is not empty, the log holds one and the query works |
| `Storage.Store.ReconcileRefundByProviderIdentifiers` | internal/storage/sqlite/refunds.go:114-209 | Leaves the database as the reconciliation on values says, rolling back every partial write |
| `Storage.Store.SettleInTransaction` | internal/storage/sqlite/refunds.go:131-208 | The transaction body for cleaned identifiers: the outcome is the specified one and it commits exactly on success; the tables hold the writes made up to then, all of them when it commits |
| `PaymentService.Service.ResolveProviderReference` | internal/paymentsvc/service.go:604-617 | The caller's reference, else the latest attempt's, else the fallback, each trimmed; a failing lookup is an error |
| `PaymentService.Service.Create` | internal/paymentsvc/service.go:123-221 | Step by step over the store, leaves the state and result the value specification says for every answer and failure |
| `PaymentService.Service.Status` | internal/paymentsvc/service.go:223-296 | The same for a status inquiry; an unknown reference is asked about but stores nothing |
| `PaymentService.Service.Reconcile` | internal/paymentsvc/service.go:438-524 | The same for a reconciliation: Status and Reconcile meet one specification, differing only for unknown references |
| `PaymentService.Service.Refund` | internal/paymentsvc/service.go:298-436 | The same for a refund |
| `WebhookService.Service.Process` | internal/webhooksvc/service.go:70-247 | Step by step over store and forwarder, leaves the tables, the hand-overs and the reply the value specification says |
| `WebhookService.Service.IsDuplicateWebhookEvent` | internal/webhooksvc/service.go:266-290 | True exactly when the log has an event of the provider with the trimmed id; a blank id is never a duplicate and is not looked up |
| `WebhookService.Service.ReconcilePaymentIntent` | internal/webhooksvc/service.go:292-332 | Leaves the state and outcome the value specification says, refund events taking the refund path |
| `WebhookService.Service.ReconcileRefundEvent` | internal/webhooksvc/service.go:334-359 | Leaves the state and outcome the value specification says; unset status, no identifier and no row are all "unmatched" |
| `BoundedTables.Evict` | internal/api/server.go:286-293 | In whatever order keys come, the loop deletes keys of a full table until exactly one less than half the limit is left, and deletes nothing from a table that is not full |
| `RateLimiter.Limiter.PruneRateBuckets` | internal/api/server.go:318-324 | Deletes exactly the buckets unseen for longer than ten minutes |
| `RateLimiter.Limiter.AllowRate` | internal/api/server.go:267-316 | Table and answer are one step of the specification, for some evictions the loop can make |
| `RateLimiter.LimiterExact` | internal/api/server.go:267-324 | A request is admitted if and only if fewer than the limit of requests of its client came before it in its minute, unless the client's bucket was evicted in that minute; pruning never shows |
| `RateLimiter.MinutesExactly` | internal/api/server.go:278-301 | Two times share a window exactly when they lie in the same 60 seconds; a bucket expires once unseen for more than 600 seconds |
| `RateLimiter.SweptExactly` | internal/api/server.go:283-324 | Sweeping drops exactly the expired buckets, and only from a table of at least 2000 |
| `RateLimiter.BoundedAdmission` | internal/api/server.go:286-315 | For each client and minute at most limit times (1 + evictions of its bucket in that minute) requests are admitted |
| `RateLimiter.CurrentMinute` | internal/api/server.go:299-315 | Without evictions exactly the smaller of the limit and the number of requests of the minute were admitted, and the bucket holds that number |
| `RateLimiter.TableBound` | internal/api/server.go:283-298 | The table never holds more than 2000 buckets |
| `RateLimiter.EvictionSpacing` | internal/api/server.go:283-298 | Strictly between two requests that run the eviction loop at least 1000 new buckets are made |
| `IdempotencyCache.Cache.ReadIdempotent` | internal/api/server.go:1790-1805 | Table and answer are one step of the specification; an expired entry is deleted and not returned |
| `IdempotencyCache.Cache.WriteIdempotent` | internal/api/server.go:1807-1829 | The table is one step of the specification, for some evictions the loop can make; a blank key stores nothing |
| `IdempotencyCache.Cache.PruneIdempotency` | internal/api/server.go:1831-1837 | Deletes exactly the expired entries |
| `IdempotencyCache.CacheExact` | internal/api/server.go:1790-1837 | After any run a read answers the most recent write to its key if that is at most ten minutes old and the key was not evicted since, and nothing otherwise; pruning, sizes and other keys never show |
| `IdempotencyCache.RememberedExactly` | internal/api/server.go:1790-1829 | Remembered means at most 600 seconds old |
| `IdempotencyCache.SweptExactly` | internal/api/server.go:1797-1837 | A write sweeps exactly the entries past their time, and only from a table of at least 2000; a read drops the one it finds past its time |
| `IdempotencyCache.TableBound` | internal/api/server.go:1807-1829 | The table never holds more than 2000 entries |
| `CreateHandler.IdempotencyCacheKey` | internal/api/server.go:1776-1788 | The loop builds the specified key; empty without an idempotency key or references |
| `CreateHandler.NoKeyNoCache` | internal/api/server.go:1776-1812 | Without an idempotency key or references there is no cache key, and then nothing is looked up or stored: the service is always asked |
| `CreateHandler.CacheKeyExample` | internal/api/server.go:1776-1788 | A cache key written out |
| `CreateHandler.CacheKeyInjective` | internal/api/server.go:1776-1788 | When no trimmed component contains a colon, two requests, of the same or different operations, share a cache key if and only if operation, idempotency key and references agree up to trimming |
| `CreateHandler.CreateKeyCollision` | internal/api/server.go:679-679 | Two create requests share a cache key if and only if provider and environment agree and key and reference read the same joined by a colon |
| `CreateHandler.CreateKeyInjective` | internal/api/server.go:679-679 | With a colon-free idempotency key, equal cache keys mean the same key, reference, provider and environment, whatever the reference contains |
| `CreateHandler.CreateKeysCanCollide` | internal/api/server.go:1776-1788 | Without that, two different create requests share a cache key |
| `CreateHandler.RefundKeyCollision` | internal/api/server.go:830-830 | Two refund requests share a cache key if and only if the amounts are equal and key, reference, provider and refund reference read the same joined by colons |
| `CreateHandler.RefundKeyInjective` | internal/api/server.go:830-830 | When idempotency keys and providers have no colon, and either no reference or no refund reference has one, equal cache keys mean the same key, reference, provider, refund reference and amount |
| `CreateHandler.RefundKeysCanCollide` | internal/api/server.go:1776-1788 | Without that, refunds of two different payments share a cache key, under a colon-free idempotency key |
| `CreateHandler.CacheKeyIgnoresPadding` | internal/api/server.go:1783-1787 | White space around the idempotency key does not change the cache key |
| `CreateHandler.HandlerRefinesOps` | internal/api/server.go:679-703 | Handling a run of requests one by one leaves the table that their reads and writes leave, so the results on cache operations hold of the handler |
| `CreateHandler.Handler.Handle` | internal/api/server.go:679-703 | Read, ask on a miss, store a success: cache, answer and whether the service was asked are the specified ones |
| `CreateHandler.AskedExactly` | internal/api/server.go:679-703 | The service is asked if and only if no response is remembered for the key; otherwise the remembered response is the answer |
| `CreateHandler.LaterRequestReplays` | internal/api/server.go:830-863 | Within ten minutes of a success and without an eviction of the key since, a request under the same key does not reach the service and gets the same response |
| `CreateHandler.CreatedAtMostOnce` | internal/api/server.go:679-703 | When every request under a key comes within ten minutes of every earlier success under it and the key is not evicted, the service succeeds at most once for the key |
| `Forwarding.Service.ForwardToTarget` | internal/forwarding/service.go:215-253 | The retry loop's result, recorded attempts and time are the specified ones, for any sends, recording failures and cancellation |
| `Forwarding.Service.Forward` | internal/forwarding/service.go:111-132 | The fan-out's result and recorded attempts are the specified ones; when targets cannot be listed nothing is recorded |
| `Forwarding.ForwardTrace` | internal/forwarding/service.go:111-132 | The attempts recorded are those of the matching targets up to and including the first that fails, in order, none after it; success is reported if and only if every matching target's last attempt succeeded |
| `Forwarding.MatchesExactly` | internal/forwarding/service.go:111-132 | A target gets a webhook exactly when its filter accepts the webhook's own headers and payload, entry by entry |
| `Forwarding.TargetAttempts` | internal/forwarding/service.go:215-253 | A target gets 1 to MaxAttempts attempts, all but the last failed, the last succeeding exactly when the target is delivered to; short of the maximum only success or cancellation ends them |
| `Forwarding.RowsNumbered` | internal/forwarding/service.go:220-236 | Recorded attempts are numbered in increasing order, exactly 1 to n when recording works, and only the last can be a success |
| `Forwarding.TargetTimeBound` | internal/forwarding/service.go:215-253 | When sends respect the timeout, one target takes at most n timeouts and n - 1 pauses unless a pause is cut short by cancellation, which can be told from the sends alone, and at most n timeouts and n pauses in any case |
| `Forwarding.TargetTimeExact` | internal/forwarding/service.go:215-253 | When sends take the whole timeout, n timeouts and n - 1 pauses suffice if and only if no pause is cut short |
| `Forwarding.CancelledPauseExceeds` | internal/forwarding/service.go:238-249 | The condition is needed: one failed attempt of 10 and a cancelled pause of 4 take 14 |
| `EventFilters.EventFilterMatch` | internal/forwarding/service.go:141-170 | The answer does not depend on the order in which the filter's entries are visited |
| `EventFilters.ActualExactly` | internal/forwarding/service.go:184-213 | The value a key refers to: the first value of the header under its canonical name if not blank, else the payload's field of exactly this name as text, booleans as "true" and "false", null and absent as nothing |
| `EventFilters.AcceptsExactly` | internal/forwarding/service.go:141-170 | A filter accepts exactly when every entry whose trimmed key and value are not blank finds a value that is not blank and equal ignoring case |
| `EventFilters.HeaderDecides` | internal/forwarding/service.go:151-165 | A header that differs from the filter is not made good by a payload field that matches it; a blank one is |
| `EventFilters.EventFilterToJSON` | internal/storage/sqlite/codec.go:75-93 | The stored entries are the usable ones with key and value trimmed; among colliding keys any may win |
| `EventFilters.StoringKeepsMeaning` | internal/storage/sqlite/codec.go:44-93 | The reloaded filter accepts exactly the same headers and payloads as the original if and only if entries that collide after trimming agree on the value ignoring case; keys that stay distinct always do |
| `EventFilters.CollidingEntriesLoosen` | internal/storage/sqlite/codec.go:75-93 | The condition is needed: with two entries that collide and differ, the stored filter accepts a payload that the original refuses |
| `EventFilters.StoredTwice` | internal/storage/sqlite/codec.go:75-93 | A stored filter is stored again as it is |
| `EventFilters.HeadersToJSON` | internal/storage/sqlite/codec.go:61-73 | Names without values are left out, everything else is kept |
| `EventFilters.NonEmptyExactly` | internal/storage/sqlite/codec.go:61-73 | Which names are stored, and with what |
| `EventFilters.HeadersFromJSON` | internal/storage/sqlite/codec.go:12-42 | For any stored names, canonical or not, and lists, single texts or anything else as values: the headers are those of reading the names in some order, each once, lists added under the canonical name and single texts replacing it; names that stay distinct once canonical have exactly the values stored for them |
| `EventFilters.AddedValues` | internal/storage/sqlite/codec.go:23-40 | When stored names stay distinct once canonical, the order does not matter: each canonical name has exactly the values stored for it, and no name is left without values |
| `EventFilters.CanonicalReload` | internal/storage/sqlite/codec.go:12-73 | Canonical names come back with their values in their order, whatever the order of reading, less those without values |
| `EventFilters.HeadersSurvive` | internal/storage/sqlite/codec.go:12-73 | Canonical headers saved and reloaded, in any order of the stored names, give the same values under every name, and saving and reloading them again changes nothing |
| `RetryPolicies.WithDefaults` | internal/forwarding/service.go:41-53 | The policy a send uses keeps the positive fields given and has 3 attempts, 10 seconds and 2 seconds for the others |
| `RetryPolicies.ReloadTruncates` | internal/storage/sqlite/codec.go:95-129 | Saving and loading cuts durations to whole seconds toward zero without overflow, and a second trip changes nothing |
| `RetryPolicies.EffectiveAfterStorage` | internal/forwarding/service.go:41-53 | Storage keeps the policy a send uses if and only if each duration is a whole number of seconds or not positive; a positive timeout below a second becomes the ten-second default |
| `RetryPolicies.UnsetUpdateKeepsPolicy` | internal/forwardingsvc/service.go:124-173 | An Update that leaves the policy unset never changes the policy a send uses, passes validation, and repeating it changes nothing more; for every stored policy, negative fields included |
| `RetryPolicies.ZeroBackoffUnused` | internal/forwardingsvc/service.go:212-224 | A zero backoff is accepted and stored, but every send uses the default instead |
| `RetryPolicies.UsedAsGiven` | internal/forwarding/service.go:41-53 | A valid policy, stored and reloaded, is used by sends as given if and only if all its fields are positive and both durations are whole seconds |
| `ForwardingTargets.Service.Add` | internal/forwardingsvc/service.go:89-122 | Exactly the valid inputs are stored, with filter, headers and policy in stored form; other rows are unchanged; every row stays in the form a further trip leaves alone |
| `ForwardingTargets.Service.Update` | internal/forwardingsvc/service.go:124-173 | Exactly the valid inputs for an existing target change its row and no other: given fields are stored, fields left out keep what they meant; headers left out are stored as they read back, unchanged when their names are canonical |
| `ForwardingTargets.Service.UpdatedRow` | internal/forwardingsvc/service.go:133-171 | The merged row of an Update: refused exactly for an invalid given policy, and with the sending policy unchanged when none is given |

## Left out

- Providers over the network: an adapter's answer is an arbitrary status, reference and error; requests to providers and their decoding are not modelled.
- Signatures, tokens and API keys: whether a webhook verifies and parses is part of the delivery's handling.
- The other providers' webhook parsing: only Xendit's fields and envelopes are modelled; what the others print is covered by the lemmas on printed ids.
- SQLite: tables are sequences of rows, and a transaction that does not commit leaves them as they were. JSON text is taken to read back as written; stored text that is not JSON, which would make `json_extract` fail, is not modelled.
- Fields searched by `json_extract` that hold no text: a number or a boolean never equals a bound text, so such a field is modelled as holding nothing; an array or object, which `json_extract` gives as its JSON text, is modelled so too, although an identifier that is that very text would match it.
- Time as text: rows carry an abstract ordering key, and each service call reads the clock once.
- Concurrent calls: Status and Reconcile write from a value read before the provider call, so interleaved calls can lose updates; every result here is for calls run one at a time.
- Row ids made from the clock are taken to be fresh.
- Services built without a recorder, store or handler table, and panics in adapters.
- Provider, environment and payment-method normalisation and the providers' status tables: flags and a parameter of the model.
- The request and response JSON of attempts and status checks, error texts, and the bodies of HTTP answers; only the status code and event id of a webhook reply are kept.
- The rate limiter's choice of client key from API key and address, and its unlimited mode, which the constructor rules out by defaulting the rate.
- Refunds of an unknown intent in the refund handler: only its use of the idempotency cache is modelled.
- Sending one forwarded request: its result, duration and recording are an oracle.
- Listing, counting and removing targets, rendering, configuration, the command line, onboarding and the web site.
