/** What every table operation keeps: identities, references between tables, append-only logs. */
module LedgerInvariants {
  import opened Text
  import opened Json
  import opened Ledger
  import EventIds
  import RefundQuery

  // ---- Consistency ----

  /** One row per id and one per external reference, so the two correspond one to one. */
  ghost predicate UniqueIntents(rows: seq<Intent>) {
    forall i, j | 0 <= i < j < |rows| :: rows[i].id != rows[j].id && rows[i].externalRef != rows[j].externalRef
  }

  ghost predicate UniqueRefunds(rows: seq<Refund>) {
    forall i, j | 0 <= i < j < |rows| :: rows[i].id != rows[j].id
  }

  ghost predicate IncreasingEvents(rows: seq<Event>) {
    forall i, j | 0 <= i < j < |rows| :: rows[i].id < rows[j].id
  }

  /** Ids already given out. */
  ghost predicate IdsUsed(db: Db) {
    && (forall x <- db.intents :: x.id < db.nextId && x.provider in PROVIDERS)
    && (forall x <- db.refunds :: x.id < db.nextId)
    && (forall x <- db.events :: x.id < db.nextId)
  }

  /** Every attempt, status check and refund points at an existing intent. */
  ghost predicate Linked(db: Db) {
    && (forall x <- db.attempts :: HasIntent(db, x.intentId))
    && (forall x <- db.checks :: HasIntent(db, x.intentId))
    && (forall x <- db.refunds :: HasIntent(db, x.intentId))
  }

  ghost predicate Consistent(db: Db) {
    UniqueIntents(db.intents) && UniqueRefunds(db.refunds) && IncreasingEvents(db.events) &&
    IdsUsed(db) && Linked(db)
  }

  // ---- What never changes ----

  ghost predicate SameIntents(a: seq<Intent>, b: seq<Intent>) {
    |a| <= |b| && forall i | 0 <= i < |a| :: b[i].id == a[i].id && b[i].externalRef == a[i].externalRef
  }

  ghost predicate SameRefunds(a: seq<Refund>, b: seq<Refund>) {
    |a| <= |b| && forall i | 0 <= i < |a| ::
      b[i].(status := a[i].status, response := a[i].response, updatedAt := a[i].updatedAt) == a[i]
  }

  /** Rows are only added. A stored intent keeps its id and reference; a stored refund keeps everything
      but status, response and update time; attempts, checks and events never change. */
  ghost predicate Grows(a: Db, b: Db) {
    && SameIntents(a.intents, b.intents) && SameRefunds(a.refunds, b.refunds)
    && a.attempts <= b.attempts && a.checks <= b.checks && a.events <= b.events
    && a.nextId <= b.nextId
  }

  lemma GrowsTransitive(a: Db, b: Db, c: Db)
    requires Grows(a, b) && Grows(b, c)
    ensures Grows(a, c)
  {
  }

  lemma GrowsReflexive(a: Db)
    ensures Grows(a, a)
  {
  }

  lemma StillHasIntent(a: Db, b: Db, id: Id)
    requires SameIntents(a.intents, b.intents) && HasIntent(a, id)
    ensures HasIntent(b, id)
  {
    var i := FindId(a.intents, id).value;
    assert b.intents[i].id == id;
  }

  lemma StillLinked(a: Db, b: Db)
    requires Linked(a) && SameIntents(a.intents, b.intents)
    requires forall x <- b.attempts :: x in a.attempts || HasIntent(b, x.intentId)
    requires forall x <- b.checks :: x in a.checks || HasIntent(b, x.intentId)
    requires forall x <- b.refunds :: HasIntent(b, x.intentId) || exists y <- a.refunds :: y.intentId == x.intentId
    ensures Linked(b)
  {
    forall x | x in b.attempts ensures HasIntent(b, x.intentId) {
      if x in a.attempts { StillHasIntent(a, b, x.intentId); }
    }
    forall x | x in b.checks ensures HasIntent(b, x.intentId) {
      if x in a.checks { StillHasIntent(a, b, x.intentId); }
    }
    forall x | x in b.refunds ensures HasIntent(b, x.intentId) {
      if !HasIntent(b, x.intentId) {
        var y :| y in a.refunds && y.intentId == x.intentId;
        StillHasIntent(a, b, x.intentId);
      }
    }
  }

  /** The state after a write, provided the write kept the two properties. */
  ghost predicate Kept(a: Db, b: Db) {
    Consistent(b) && Grows(a, b)
  }

  lemma KeptReflexive(a: Db)
    requires Consistent(a)
    ensures Kept(a, a)
  {
    hide Consistent;
  }

  lemma KeptTransitive(a: Db, b: Db, c: Db)
    requires Kept(a, b) && Kept(b, c)
    ensures Kept(a, c)
  {
    hide Consistent, Grows;
    GrowsTransitive(a, b, c);
  }

  // ---- The intent row an upsert leaves ----

  /** `b.intents` is `a.intents` with the row of one reference written: overwritten in place with its
      id kept, or appended with an id not in use. */
  ghost predicate RowWritten(a: seq<Intent>, b: seq<Intent>, externalRef: string, status: Status) {
    match FindRef(a, externalRef)
    case Some(k) =>
      && |b| == |a| && (forall i | 0 <= i < |a| && i != k :: b[i] == a[i])
      && b[k].id == a[k].id && b[k].externalRef == externalRef && b[k].status == status
    case None =>
      && |b| == |a| + 1 && (forall i | 0 <= i < |a| :: b[i] == a[i])
      && FindId(a, b[|a|].id).None? && b[|a|].externalRef == externalRef && b[|a|].status == status
  }

  /** What an upsert returns and where it writes. */
  lemma UpsertShape(db: Db, id: Option<Id>, externalRef: string, provider: string, amount: int,
                    currency: string, status: Status, metadata: string, now: int)
    requires UniqueIntents(db.intents)
    ensures var (after, r) := Upsert(db, id, externalRef, provider, amount, currency, status, metadata, now);
            && (r.Err? ==> after == db)
            && (r.Ok? ==> RowWritten(db.intents, after.intents, externalRef, status) &&
                          after == db.(intents := after.intents, nextId := after.nextId) &&
                          FindRef(after.intents, externalRef).Some? &&
                          after.intents[FindRef(after.intents, externalRef).value].id == r.value)
            && (FindRef(db.intents, externalRef).Some? && provider in PROVIDERS ==>
                  r == Ok(db.intents[FindRef(db.intents, externalRef).value].id))
            && (r.Ok? ==> after.intents[FindRef(after.intents, externalRef).value] ==
                          Intent(r.value, externalRef, provider, amount, currency, status, metadata, now))
  {
  }

  lemma FreshId(db: Db)
    requires IdsUsed(db)
    ensures !HasIntent(db, db.nextId)
  {
    forall i | 0 <= i < |db.intents| ensures db.intents[i].id != db.nextId {
      assert db.intents[i] in db.intents;
    }
  }

  lemma RowWrittenKeeps(db: Db, after: Db, externalRef: string, status: Status)
    requires Consistent(db) && RowWritten(db.intents, after.intents, externalRef, status)
    requires after == db.(intents := after.intents, nextId := after.nextId)
    requires db.nextId <= after.nextId && forall x <- after.intents :: x.id < after.nextId && x.provider in PROVIDERS
    ensures Kept(db, after)
  {
    assert SameIntents(db.intents, after.intents);
    WrittenUnique(db.intents, after.intents, externalRef, status);
    StillLinked(db, after);
  }

  lemma WrittenUnique(a: seq<Intent>, b: seq<Intent>, externalRef: string, status: Status)
    requires UniqueIntents(a) && RowWritten(a, b, externalRef, status)
    ensures UniqueIntents(b)
  {
  }

  lemma UpsertIdsUsed(db: Db, id: Option<Id>, externalRef: string, provider: string, amount: int,
                      currency: string, status: Status, metadata: string, now: int)
    requires IdsUsed(db)
    ensures var (after, r) := Upsert(db, id, externalRef, provider, amount, currency, status, metadata, now);
            db.nextId <= after.nextId && forall x <- after.intents :: x.id < after.nextId && x.provider in PROVIDERS
  {
    var (after, r) := Upsert(db, id, externalRef, provider, amount, currency, status, metadata, now);
    forall x | x in after.intents ensures x.id < after.nextId && x.provider in PROVIDERS {
      if x !in db.intents && FindRef(db.intents, externalRef).Some? {
        assert db.intents[FindRef(db.intents, externalRef).value] in db.intents;
      }
    }
  }

  lemma TryUpsertKeeps(db: Db, id: Option<Id>, externalRef: string, provider: string, amount: int, currency: string,
                       status: Status, metadata: string, now: int, execFails: bool, reloadFails: bool)
    requires Consistent(db)
    ensures var (after, r) := TryUpsert(db, id, externalRef, provider, amount, currency, status, metadata, now,
                                        execFails, reloadFails);
            && Kept(db, after)
            && after == db.(intents := after.intents, nextId := after.nextId)
            && (after == db || RowWritten(db.intents, after.intents, externalRef, status))
            && (r.Ok? ==> RowWritten(db.intents, after.intents, externalRef, status) &&
                          FindRef(after.intents, externalRef).Some? &&
                          after.intents[FindRef(after.intents, externalRef).value].id == r.value)
            && ((FindRef(db.intents, externalRef).Some? || id.None?) && provider in PROVIDERS && !execFails ==>
                  RowWritten(db.intents, after.intents, externalRef, status) && (r.Ok? <==> !reloadFails))
  {
    hide Grows, UniqueRefunds, IncreasingEvents, Linked, RowWritten, IdsUsed;
    UpsertShape(db, id, externalRef, provider, amount, currency, status, metadata, now);
    UpsertIdsUsed(db, id, externalRef, provider, amount, currency, status, metadata, now);
    FreshId(db);
    KeptReflexive(db);
    var (after, r) := TryUpsert(db, id, externalRef, provider, amount, currency, status, metadata, now, execFails,
                                reloadFails);
    if after != db {
      RowWrittenKeeps(db, after, externalRef, status);
    }
  }

  // ---- Appends ----

  lemma AddAttemptKeeps(db: Db, intentId: Id, provider: string, status: Status, providerRef: string, now: int)
    requires Consistent(db)
    ensures var (after, r) := AddAttempt(db, intentId, provider, status, providerRef, now);
            Kept(db, after) && after == db.(attempts := after.attempts, nextId := after.nextId)
  {
    var after := AddAttempt(db, intentId, provider, status, providerRef, now).0;
    StillLinked(db, after);
  }

  lemma AddCheckKeeps(db: Db, intentId: Id, provider: string, status: Status, providerRef: string, now: int)
    requires Consistent(db)
    ensures var (after, r) := AddCheck(db, intentId, provider, status, providerRef, now);
            Kept(db, after) && after == db.(checks := after.checks, nextId := after.nextId)
  {
    var after := AddCheck(db, intentId, provider, status, providerRef, now).0;
    StillLinked(db, after);
  }

  lemma AppendRefundRow(rows: seq<Refund>, row: Refund)
    requires UniqueRefunds(rows) && forall x <- rows :: x.id != row.id
    ensures UniqueRefunds(rows + [row]) && SameRefunds(rows, rows + [row])
    ensures forall x <- rows + [row] :: x in rows || x == row
  {
    forall i | 0 <= i < |rows| ensures (rows + [row])[i].id != row.id {
      assert rows[i] in rows;
    }
  }

  lemma AddRefundKeeps(db: Db, intentId: Id, provider: string, amount: int, status: Status,
                       request: Json, response: Json, providerRef: string, now: int)
    requires Consistent(db)
    ensures var (after, r) := AddRefund(db, intentId, provider, amount, status, request, response, providerRef, now);
            Kept(db, after) && after == db.(refunds := after.refunds, nextId := after.nextId)
  {
    var after := AddRefund(db, intentId, provider, amount, status, request, response, providerRef, now).0;
    if after == db {
      KeptReflexive(db);
    } else {
      hide UniqueRefunds, SameRefunds;
      AppendRefundRow(db.refunds, after.refunds[|db.refunds|]);
      StillLinked(db, after);
    }
  }

  lemma AddEventKeeps(db: Db, provider: string, eventId: string, eventType: string, signatureValid: bool,
                      processing: string, now: int)
    requires Consistent(db)
    ensures var (after, r) := AddEvent(db, provider, eventId, eventType, signatureValid, processing, now);
            Kept(db, after) && after == db.(events := after.events, nextId := after.nextId)
  {
    var after := AddEvent(db, provider, eventId, eventType, signatureValid, processing, now).0;
    StillLinked(db, after);
  }

  // ---- Refund reconciliation ----

  /** A fault that stops a reconciliation; the intent is only written for a refund status. */
  ghost predicate ReconcileFaults(status: Status, faults: set<Point>) {
    BeginTx in faults || SelectRefund in faults || UpdateRefund in faults || CommitTx in faults ||
    (IsRefundStatus(status) && UpdateIntent in faults)
  }

  /** The refund row a transaction may pick: it is found, and no other found row has a greater
      creation key. */
  ghost predicate Picked(db: Db, finds: Refund -> bool, k: nat) {
    && k < |db.refunds| && finds(db.refunds[k])
    && forall j | 0 <= j < |db.refunds| && finds(db.refunds[j]) :: db.refunds[j].createdAt <= db.refunds[k].createdAt
  }

  /** Only the intent with this id differs, and only in status and update time. */
  ghost predicate Marked(a: seq<Intent>, b: seq<Intent>, id: Id, status: Status, now: int) {
    exists i | 0 <= i < |a| && a[i].id == id :: b == a[i := a[i].(status := status, updatedAt := now)]
  }

  /** Row k is settled, its intent takes the status exactly when that is a refund status, and nothing
      else in the database differs. */
  ghost predicate RowSettled(db: Db, after: Db, k: nat, status: Status, response: Option<Json>, now: int) {
    && k < |db.refunds|
    && after == db.(refunds := after.refunds, intents := after.intents)
    && after.refunds == db.refunds[k := RefundQuery.Settle(db.refunds[k], status, response, now)]
    && (IsRefundStatus(status) ==> Marked(db.intents, after.intents, db.refunds[k].intentId, status, now))
    && (!IsRefundStatus(status) ==> after.intents == db.intents)
  }

  ghost predicate Found(db: Db, finds: Refund -> bool) {
    exists x <- db.refunds :: finds(x)
  }

  /** All or nothing, and exact. In a consistent database a transaction either changes nothing and
      fails, or settles one picked row. It succeeds exactly when some row is found and no fault
      occurs, and reports "no rows" exactly when no row is found and no fault came first. */
  ghost predicate Exact(db: Db, finds: Refund -> bool, status: Status, response: Option<Json>, now: int,
                        faults: set<Point>, after: Db, r: Result<Id>) {
    && (r.Err? ==> after == db)
    && (r.Ok? <==> Found(db, finds) && !ReconcileFaults(status, faults))
    && (r == Err(NoRows) <==> !Found(db, finds) && BeginTx !in faults && SelectRefund !in faults)
    && (r.Ok? ==> exists k: nat :: Picked(db, finds, k) && db.refunds[k].id == r.value &&
                              RowSettled(db, after, k, status, response, now))
  }

  lemma TransactionExact(db: Db, finds: Refund -> bool, status: Status,
                         response: Option<Json>, now: int, prefer: nat, faults: set<Point>)
    requires Consistent(db)
    ensures var (after, r) := RefundQuery.SettleLatest(db, finds, status, response, now, prefer, faults);
            Exact(db, finds, status, response, now, faults, after, r)
  {
    var best := Latest(db.refunds, finds, RefundQuery.CreationKey, prefer);
    if best.Some? {
      RefundLinked(db, best.value);
    }
    TransactionExactWhenLinked(db, finds, status, response, now, prefer, faults);
  }

  lemma TransactionExactWhenLinked(db: Db, finds: Refund -> bool, status: Status,
                                   response: Option<Json>, now: int, prefer: nat, faults: set<Point>)
    requires var best := Latest(db.refunds, finds, RefundQuery.CreationKey, prefer);
             best.Some? ==> FindId(db.intents, db.refunds[best.value].intentId).Some?
    ensures var (after, r) := RefundQuery.SettleLatest(db, finds, status, response, now, prefer, faults);
            Exact(db, finds, status, response, now, faults, after, r)
  {
    var best := Latest(db.refunds, finds, RefundQuery.CreationKey, prefer);
    var (after, r) := RefundQuery.SettleLatest(db, finds, status, response, now, prefer, faults);
    if best.Some? {
      var k := best.value;
      assert db.refunds[k] in db.refunds;
      if r.Ok? {
        TransactionSettles(db, finds, status, response, now, prefer, faults, k);
      }
    }
  }

  lemma RefundLinked(db: Db, k: nat)
    requires Consistent(db) && k < |db.refunds|
    ensures FindId(db.intents, db.refunds[k].intentId).Some?
  {
    assert db.refunds[k] in db.refunds;
  }

  lemma TransactionSettles(db: Db, finds: Refund -> bool, status: Status, response: Option<Json>,
                           now: int, prefer: nat, faults: set<Point>, k: nat)
    requires Latest(db.refunds, finds, RefundQuery.CreationKey, prefer) == Some(k)
    requires RefundQuery.SettleLatest(db, finds, status, response, now, prefer, faults).1.Ok?
    ensures var (after, r) := RefundQuery.SettleLatest(db, finds, status, response, now, prefer, faults);
            Picked(db, finds, k) && db.refunds[k].id == r.value && RowSettled(db, after, k, status, response, now)
  {
  }

  /** The same of a reconciliation by identifiers: rows are found by provider and by the usable
      (trimmed, non-blank) identifiers, and without a usable identifier there are no rows. */
  lemma ReconcileExact(db: Db, provider: string, identifiers: seq<string>, status: Status,
                       response: Option<Json>, now: int, prefer: nat, faults: set<Point>)
    requires Consistent(db)
    ensures var usable := EventIds.CleanParts(identifiers);
            var (after, r) := RefundQuery.Reconcile(db, provider, identifiers, status, response, now, prefer, faults);
            if usable == [] then after == db && r == Err(NoRows)
            else Exact(db, RefundQuery.Finder(provider, usable), status, response, now, faults, after, r)
  {
    var finds := RefundQuery.Finder(provider, EventIds.CleanParts(identifiers));
    TransactionExact(db, finds, status, response, now, prefer, faults);
  }

  lemma SettledRefunds(a: seq<Refund>, b: seq<Refund>, k: nat, row: Refund)
    requires UniqueRefunds(a) && k < |a| && b == a[k := row]
    requires row.(status := a[k].status, response := a[k].response, updatedAt := a[k].updatedAt) == a[k]
    ensures UniqueRefunds(b) && SameRefunds(a, b)
    ensures forall x <- b :: exists y <- a :: y.intentId == x.intentId && y.id == x.id
  {
    forall x | x in b ensures exists y <- a :: y.intentId == x.intentId && y.id == x.id {
      var i :| 0 <= i < |b| && b[i] == x;
      assert a[i] in a;
    }
  }

  lemma SettledIntents(a: seq<Intent>, b: seq<Intent>, i: nat, row: Intent)
    requires UniqueIntents(a) && i < |a| && b == a[i := row]
    requires row.(status := a[i].status, updatedAt := a[i].updatedAt) == a[i]
    ensures UniqueIntents(b) && SameIntents(a, b)
    ensures forall x <- b :: exists y <- a :: y.provider == x.provider && y.id == x.id
  {
    forall x | x in b ensures exists y <- a :: y.provider == x.provider && y.id == x.id {
      var j :| 0 <= j < |b| && b[j] == x;
      assert a[j] in a;
    }
  }

  lemma SettledKeeps(db: Db, after: Db, k: nat, status: Status, response: Option<Json>, now: int)
    requires Consistent(db) && k < |db.refunds| && RowSettled(db, after, k, status, response, now)
    ensures Kept(db, after)
  {
    var row := RefundQuery.Settle(db.refunds[k], status, response, now);
    SettledRefunds(db.refunds, after.refunds, k, row);
    if IsRefundStatus(status) {
      var i :| 0 <= i < |db.intents| && db.intents[i].id == db.refunds[k].intentId &&
               after.intents == db.intents[i := db.intents[i].(status := status, updatedAt := now)];
      SettledIntents(db.intents, after.intents, i, db.intents[i].(status := status, updatedAt := now));
    }
    StillLinked(db, after);
  }

  lemma ExactKeeps(db: Db, finds: Refund -> bool, status: Status, response: Option<Json>, now: int,
                   faults: set<Point>, after: Db, r: Result<Id>)
    requires Consistent(db) && Exact(db, finds, status, response, now, faults, after, r)
    ensures Kept(db, after) && after == db.(refunds := after.refunds, intents := after.intents)
  {
    if r.Ok? {
      var k: nat :| Picked(db, finds, k) && RowSettled(db, after, k, status, response, now);
      SettledKeeps(db, after, k, status, response, now);
    }
  }
}
