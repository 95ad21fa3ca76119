/** The rows of the payment tables and what each storage operation does to them, as values.
    A database is a record of tables; a table is its rows in insertion order. Row ids come from a
    counter: the ids the program makes from the clock are taken to be fresh. */
module Ledger {
  import opened Text
  import opened Json

  // ---- Rows ----

  datatype Status =
    | Unset | Pending | Paid | Failed | Expired | Cancelled | Refunded | PartialRefunded
    | Settled | Authorized | Captured

  predicate IsRefundStatus(s: Status) {
    s == Refunded || s == PartialRefunded
  }

  type Id = nat

  const PROVIDERS: set<string> := {"midtrans", "xendit", "doku", "ipaymu"}

  datatype Intent = Intent(
    id: Id, externalRef: string, provider: string, amount: int, currency: string,
    status: Status, metadata: string, updatedAt: int)

  datatype Attempt = Attempt(
    id: Id, intentId: Id, provider: string, status: Status, providerRef: string, createdAt: int)

  datatype Check = Check(
    id: Id, intentId: Id, provider: string, status: Status, providerRef: string, createdAt: int)

  /** `createdAt` is the key the table is ordered by, not a time. */
  datatype Refund = Refund(
    id: Id, intentId: Id, provider: string, amount: int, status: Status,
    request: Json, response: Json, providerRef: string, createdAt: int, updatedAt: int)

  /** `eventId` is the provider's id; empty stands for the stored NULL. */
  datatype Event = Event(
    id: Id, provider: string, eventId: string, eventType: string, signatureValid: bool,
    processing: string, receivedAt: int)

  datatype Db = Db(
    intents: seq<Intent>, attempts: seq<Attempt>, checks: seq<Check>, refunds: seq<Refund>,
    events: seq<Event>, nextId: Id)

  const EMPTY := Db([], [], [], [], [], 0)

  /** NoRows is the error the services treat as "nothing there"; every other failure is Failure. */
  datatype Error = NoRows | Failure
  datatype Result<+T> = Ok(value: T) | Err(error: Error)

  /** The places inside one service call where the store may fail. */
  datatype Point =
    | LookupIntent | LookupAttempt | PendingUpsert | PendingReload | FinalUpsert | FinalReload
    | InsertAttempt | InsertCheck | InsertRefund | LookupEvent | InsertEvent
    | BeginTx | SelectRefund | UpdateRefund | UpdateIntent | CommitTx

  /** What a provider's adapter makes of a webhook body. */
  datatype ParsedEvent = ParsedEvent(eventId: string, eventType: string, paymentRef: string, status: Status)

  /** Event types of refunds, in any case. */
  predicate IsRefundEvent(eventType: string) {
    var t := Lower(Trim(eventType));
    HasPrefix(t, "refund.") || HasSuffix(t, ".refund")
  }

  // ---- Lookups ----

  function FindRef(rows: seq<Intent>, externalRef: string): (r: Option<nat>)
    ensures r.Some? ==> r.value < |rows| && rows[r.value].externalRef == externalRef
    ensures r.None? ==> forall i | 0 <= i < |rows| :: rows[i].externalRef != externalRef
  {
    if rows == [] then None
    else
      var n := |rows| - 1;
      if rows[n].externalRef == externalRef then Some(n) else FindRef(rows[..n], externalRef)
  }

  function FindId(rows: seq<Intent>, id: Id): (r: Option<nat>)
    ensures r.Some? ==> r.value < |rows| && rows[r.value].id == id
    ensures r.None? ==> forall i | 0 <= i < |rows| :: rows[i].id != id
  {
    if rows == [] then None
    else
      var n := |rows| - 1;
      if rows[n].id == id then Some(n) else FindId(rows[..n], id)
  }

  /** `ORDER BY key DESC LIMIT 1`: a hit whose key no other hit exceeds. Among equal keys the
      database may return any; `prefer` is the row it favours. */
  function Latest<T>(rows: seq<T>, hit: T -> bool, key: T -> int, prefer: nat): (r: Option<nat>)
    ensures r.None? <==> forall i | 0 <= i < |rows| :: !hit(rows[i])
    ensures r.Some? ==> r.value < |rows| && hit(rows[r.value]) &&
                        forall i | 0 <= i < |rows| && hit(rows[i]) :: key(rows[i]) <= key(rows[r.value])
  {
    if rows == [] then None
    else
      var n := |rows| - 1;
      var best := Latest(rows[..n], hit, key, prefer);
      if !hit(rows[n]) then best
      else if best.None? || key(rows[best.value]) < key(rows[n]) then Some(n)
      else if key(rows[best.value]) == key(rows[n]) && prefer == n then Some(n)
      else best
  }

  /** Any of the latest hits can be the one returned. */
  lemma {:induction false} LatestReachesAll<T>(rows: seq<T>, hit: T -> bool, key: T -> int, i: nat)
    requires i < |rows| && hit(rows[i])
    requires forall j | 0 <= j < |rows| && hit(rows[j]) :: key(rows[j]) <= key(rows[i])
    ensures Latest(rows, hit, key, i) == Some(i)
  {
    var n := |rows| - 1;
    if i < n {
      assert forall j | 0 <= j < n :: rows[..n][j] == rows[j];
      LatestReachesAll(rows[..n], hit, key, i);
    } else {
      var best := Latest(rows[..n], hit, key, i);
    }
  }

  lemma {:induction false} LatestSame<T>(rows: seq<T>, f: T -> bool, g: T -> bool, key: T -> int, prefer: nat)
    requires forall i | 0 <= i < |rows| :: f(rows[i]) == g(rows[i])
    ensures Latest(rows, f, key, prefer) == Latest(rows, g, key, prefer)
  {
    if rows != [] {
      var n := |rows| - 1;
      assert forall i | 0 <= i < n :: rows[..n][i] == rows[i];
      LatestSame(rows[..n], f, g, key, prefer);
    }
  }

  function LatestAttempt(db: Db, intentId: Id, provider: string, prefer: nat): Option<nat> {
    Latest(db.attempts, (a: Attempt) => a.intentId == intentId && a.provider == provider,
           (a: Attempt) => a.createdAt, prefer)
  }

  predicate HasEvent(db: Db, provider: string, eventId: string) {
    eventId != "" && exists e <- db.events :: e.provider == provider && e.eventId == eventId
  }

  predicate HasIntent(db: Db, id: Id) {
    FindId(db.intents, id).Some?
  }

  // ---- Writes ----

  /** Insert a row, or on an existing reference overwrite everything but its id. */
  function Upsert(db: Db, id: Option<Id>, externalRef: string, provider: string, amount: int,
                  currency: string, status: Status, metadata: string, now: int): (Db, Result<Id>) {
    if provider !in PROVIDERS then (db, Err(Failure))
    else
      match FindRef(db.intents, externalRef)
      case Some(k) =>
        var row := db.intents[k].(provider := provider, amount := amount, currency := currency,
                                  status := status, metadata := metadata, updatedAt := now);
        (db.(intents := db.intents[k := row]), Ok(row.id))
      case None =>
        var newId := if id.Some? then id.value else db.nextId;
        if HasIntent(db, newId) then (db, Err(Failure))
        else
          var row := Intent(newId, externalRef, provider, amount, currency, status, metadata, now);
          (db.(intents := db.intents + [row], nextId := if newId < db.nextId then db.nextId else newId + 1),
           Ok(newId))
  }

  /** The upsert and the query that reads the id back; the second can fail after the first took effect. */
  function TryUpsert(db: Db, id: Option<Id>, externalRef: string, provider: string, amount: int, currency: string,
                     status: Status, metadata: string, now: int, execFails: bool, reloadFails: bool)
    : (Db, Result<Id>)
  {
    if execFails then (db, Err(Failure))
    else
      var (after, r) := Upsert(db, id, externalRef, provider, amount, currency, status, metadata, now);
      if r.Ok? && reloadFails then (after, Err(Failure)) else (after, r)
  }

  /** Overwriting the status of a loaded intent, everything else as loaded. */
  function SetStatus(db: Db, intent: Intent, status: Status, now: int, execFails: bool, reloadFails: bool)
    : (Db, Result<Id>)
  {
    TryUpsert(db, Some(intent.id), intent.externalRef, intent.provider, intent.amount, intent.currency,
              status, intent.metadata, now, execFails, reloadFails)
  }

  /** Foreign keys are on: a row may only point at an existing intent and a known provider. */
  predicate Linkable(db: Db, intentId: Id, provider: string) {
    provider in PROVIDERS && HasIntent(db, intentId)
  }

  function AddAttempt(db: Db, intentId: Id, provider: string, status: Status, providerRef: string, now: int)
    : (Db, Result<Id>)
  {
    if !Linkable(db, intentId, provider) then (db, Err(Failure))
    else
      (db.(attempts := db.attempts + [Attempt(db.nextId, intentId, provider, status, providerRef, now)],
           nextId := db.nextId + 1), Ok(db.nextId))
  }

  function AddCheck(db: Db, intentId: Id, provider: string, status: Status, providerRef: string, now: int)
    : (Db, Result<Id>)
  {
    if !Linkable(db, intentId, provider) then (db, Err(Failure))
    else
      (db.(checks := db.checks + [Check(db.nextId, intentId, provider, status, providerRef, now)],
           nextId := db.nextId + 1), Ok(db.nextId))
  }

  function AddRefund(db: Db, intentId: Id, provider: string, amount: int, status: Status,
                     request: Json, response: Json, providerRef: string, now: int): (Db, Result<Id>) {
    if !Linkable(db, intentId, provider) then (db, Err(Failure))
    else
      var stored := if status == Unset then Pending else status;
      var row := Refund(db.nextId, intentId, provider, amount, stored, request, response, providerRef, now, now);
      (db.(refunds := db.refunds + [row], nextId := db.nextId + 1), Ok(db.nextId))
  }

  function AddEvent(db: Db, provider: string, eventId: string, eventType: string, signatureValid: bool,
                    processing: string, now: int): (Db, Result<Id>) {
    if provider !in PROVIDERS then (db, Err(Failure))
    else
      var kind := if eventType == "" then "unknown" else eventType;
      var state := if processing == "" then "received" else processing;
      var row := Event(db.nextId, provider, eventId, kind, signatureValid, state, now);
      (db.(events := db.events + [row], nextId := db.nextId + 1), Ok(db.nextId))
  }
}
