/** Finding the refund a webhook is about, and reconciling it together with its payment intent. */
module RefundQuery {
  import opened Text
  import opened Json
  import opened Ledger
  import EventIds

  // ---- The searched fields ----

  datatype Field = ProviderReference | InRequest(path: seq<string>) | InResponse(path: seq<string>)

  const FIELDS: seq<Field> := [
    ProviderReference,
    InRequest(["reference_id"]), InRequest(["payment_request_id"]), InRequest(["id"]),
    InResponse(["reference_id"]), InResponse(["payment_request_id"]), InResponse(["payment_id"]),
    InResponse(["invoice_id"]), InResponse(["id"]),
    InResponse(["data", "reference_id"]), InResponse(["data", "payment_request_id"]),
    InResponse(["data", "payment_id"]), InResponse(["data", "invoice_id"]), InResponse(["data", "id"])]

  /** `json_extract` of a text value. A number or boolean never equals a bound text; the JSON text that arrays
      and objects are extracted as is left out of the model. */
  function Extract(j: Json, path: seq<string>): Option<string> {
    if path == [] then (if j.JString? then Some(j.s) else None)
    else if j.JObject? && path[0] in j.fields then Extract(j.fields[path[0]], path[1..])
    else None
  }

  function FieldValue(row: Refund, field: Field): Option<string> {
    match field
    case ProviderReference => if row.providerRef == "" then None else Some(row.providerRef)
    case InRequest(path) => Extract(row.request, path)
    case InResponse(path) => Extract(row.response, path)
  }

  /** Some searched field of the row holds one of the identifiers. */
  predicate Matches(row: Refund, identifiers: seq<string>) {
    MatchesIn(FIELDS, row, identifiers)
  }

  predicate MatchesIn(fields: seq<Field>, row: Refund, identifiers: seq<string>) {
    exists f <- fields :: FieldValue(row, f).Some? && FieldValue(row, f).value in identifiers
  }

  // ---- The generated SQL ----

  function FieldSql(field: Field): string {
    match field
    case ProviderReference => "r.provider_reference"
    case InRequest(path) => "json_extract(r.request_json, '$." + Join(path, ".") + "')"
    case InResponse(path) => "json_extract(r.response_json, '$." + Join(path, ".") + "')"
  }

  function Placeholders(n: nat): string {
    Join(seq(n, _ => "?"), ",")
  }

  method SqlPlaceholders(count: int) returns (text: string)
    ensures text == if count <= 0 then "" else Placeholders(count)
  {
    if count <= 0 {
      return "";
    }
    var parts := [];
    for i := 0 to count
      invariant parts == seq(i, _ => "?")
    {
      parts := parts + ["?"];
    }
    text := Join(parts, ",");
  }

  function InList(field: Field, placeholders: string): string {
    FieldSql(field) + " IN (" + placeholders + ")"
  }

  function Clause(field: Field, n: nat): string {
    InList(field, Placeholders(n))
  }

  function Clauses(fields: seq<Field>, n: nat): seq<string> {
    seq(|fields|, i requires 0 <= i < |fields| => Clause(fields[i], n))
  }

  /** The bound arguments: the identifiers once for every field. */
  function Repeated(identifiers: seq<string>, times: nat): (r: seq<string>)
    ensures |r| == times * |identifiers|
  {
    if times == 0 then [] else Repeated(identifiers, times - 1) + identifiers
  }

  method RefundIdentifierMatchClause(identifiers: seq<string>) returns (clause: string, args: seq<string>)
    ensures clause == Join(Clauses(FIELDS, |identifiers|), " OR ")
    ensures args == Repeated(identifiers, |FIELDS|)
  {
    clause, args := ClauseOver(FIELDS, identifiers);
  }

  lemma NoPlaceholders()
    ensures Placeholders(0) == ""
  {
  }

  /** The two loops of the builder, for any list of fields. */
  method ClauseOver(fields: seq<Field>, identifiers: seq<string>) returns (clause: string, args: seq<string>)
    ensures clause == Join(Clauses(fields, |identifiers|), " OR ")
    ensures args == Repeated(identifiers, |fields|)
  {
    hide Placeholders, InList, Join;
    NoPlaceholders();
    var placeholders := SqlPlaceholders(|identifiers|);
    var clauses := [];
    args := [];
    for f := 0 to |fields|
      invariant |clauses| == f && forall i | 0 <= i < f :: clauses[i] == Clause(fields[i], |identifiers|)
      invariant args == Repeated(identifiers, f)
    {
      clauses := clauses + [InList(fields[f], placeholders)];
      args := AppendAll(args, identifiers);
    }
    assert clauses == Clauses(fields, |identifiers|);
    clause := Join(clauses, " OR ");
  }

  method AppendAll(args: seq<string>, identifiers: seq<string>) returns (r: seq<string>)
    ensures r == args + identifiers
  {
    r := args;
    for j := 0 to |identifiers|
      invariant r == args + identifiers[..j]
    {
      r := r + [identifiers[j]];
    }
  }

  /** How many placeholders a piece of SQL contains. */
  function Marks(s: string): nat {
    if s == "" then 0 else (if s[0] == '?' then 1 else 0) + Marks(s[1..])
  }

  lemma {:induction false} MarksAppend(a: string, b: string)
    ensures Marks(a + b) == Marks(a) + Marks(b)
  {
    if a == "" {
      assert a + b == b;
    } else {
      assert (a + b)[1..] == a[1..] + b;
      MarksAppend(a[1..], b);
    }
  }

  lemma {:induction false} NoMarks(s: string)
    requires '?' !in s
    ensures Marks(s) == 0
  {
    if s != "" {
      NoMarks(s[1..]);
    }
  }

  lemma Once(n: nat, each: nat)
    ensures (n + 1) * each == each + n * each
  {
  }

  /** Sum of the placeholders of the parts; separators contain none. */
  lemma {:induction false} MarksJoin(parts: seq<string>, sep: string, each: nat)
    requires '?' !in sep && forall i | 0 <= i < |parts| :: Marks(parts[i]) == each
    ensures Marks(Join(parts, sep)) == |parts| * each
  {
    if |parts| > 1 {
      var rest := parts[1..];
      MarksJoin(rest, sep, each);
      NoMarks(sep);
      MarksAppend(parts[0] + sep, Join(rest, sep));
      MarksAppend(parts[0], sep);
      Once(|rest|, each);
    }
  }

  function PathOf(field: Field): seq<string> {
    if field.ProviderReference? then [] else field.path
  }

  lemma {:induction false} JoinNoMarks(parts: seq<string>)
    requires forall p <- parts :: '?' !in p
    ensures '?' !in Join(parts, ".")
  {
    if |parts| > 1 {
      JoinNoMarks(parts[1..]);
    }
  }

  /** The names in the searched paths contain no question mark. */
  lemma PathsPlain(i: nat)
    requires i < |FIELDS|
    ensures forall p <- PathOf(FIELDS[i]) :: '?' !in p
  {
    assert '?' !in "reference_id";
    assert '?' !in "payment_request_id";
    assert '?' !in "payment_id";
    assert '?' !in "invoice_id";
    assert '?' !in "id";
    assert '?' !in "data";
  }

  lemma FieldSqlNoMarks(field: Field)
    requires forall p <- PathOf(field) :: '?' !in p
    ensures '?' !in FieldSql(field)
  {
    JoinNoMarks(PathOf(field));
    match field
    case ProviderReference => assert '?' !in "r.provider_reference";
    case InRequest(path) =>
      assert '?' !in "json_extract(r.request_json, '$.";
      assert '?' !in "')";
    case InResponse(path) =>
      assert '?' !in "json_extract(r.response_json, '$.";
      assert '?' !in "')";
  }

  lemma ClauseMarks(field: Field, n: nat)
    requires '?' !in FieldSql(field)
    ensures Marks(Clause(field, n)) == n
  {
    hide FieldSql;
    var marks := seq(n, _ => "?");
    assert forall i | 0 <= i < n :: Marks(marks[i]) == 1 by {
      assert Marks("?") == 1;
    }
    MarksJoin(marks, ",", 1);
    NoMarks(FieldSql(field));
    NoMarks(" IN (");
    NoMarks(")");
    MarksAppend(FieldSql(field) + " IN (" + Placeholders(n), ")");
    MarksAppend(FieldSql(field) + " IN (", Placeholders(n));
    MarksAppend(FieldSql(field), " IN (");
  }

  /** Balance: the text for the first `fields` fields has exactly `fields` times as many placeholders
      as there are identifiers. So the whole clause has one placeholder for each bound argument, and
      the placeholders of field number f start at argument number f * |identifiers|. */
  lemma ClauseBalanced(identifiers: seq<string>, fields: nat)
    requires fields <= |FIELDS|
    ensures Marks(Join(Clauses(FIELDS[..fields], |identifiers|), " OR ")) == fields * |identifiers|
    ensures |FIELDS| == 14 && |Repeated(identifiers, |FIELDS|)| == 14 * |identifiers|
  {
    var n := |identifiers|;
    var clauses := Clauses(FIELDS[..fields], n);
    forall i | 0 <= i < |clauses| ensures Marks(clauses[i]) == n {
      PathsPlain(i);
      FieldSqlNoMarks(FIELDS[i]);
      ClauseMarks(FIELDS[i], n);
    }
    MarksJoin(clauses, " OR ", n);
  }

  /** What the clause says of a row once its placeholders are bound: the j-th placeholder of field
      number f is argument number f * n + j. */
  predicate ClauseHolds(fields: seq<Field>, row: Refund, n: nat, args: seq<string>) {
    exists f, j | 0 <= f < |fields| && 0 <= j < n ::
      Slot(f, j, n) < |args| && FieldValue(row, fields[f]) == Some(args[Slot(f, j, n)])
  }

  function Slot(f: nat, j: nat, n: nat): nat {
    f * n + j
  }

  lemma {:induction false} RepeatedAt(identifiers: seq<string>, times: nat, f: nat, j: nat)
    requires f < times && j < |identifiers|
    ensures Slot(f, j, |identifiers|) < |Repeated(identifiers, times)|
    ensures Repeated(identifiers, times)[Slot(f, j, |identifiers|)] == identifiers[j]
  {
    var n := |identifiers|;
    Once(times - 1, n);
    if f < times - 1 {
      RepeatedAt(identifiers, times - 1, f, j);
    }
  }

  /** The clause and its arguments together mean: some searched field holds some identifier. Only the
      set of identifiers matters, not their order or repetition. */
  lemma {:induction false} ClauseMeansMatch(fields: seq<Field>, row: Refund, identifiers: seq<string>,
                                            same: seq<string>)
    requires forall s :: s in identifiers <==> s in same
    ensures ClauseHolds(fields, row, |identifiers|, Repeated(identifiers, |fields|)) <==> MatchesIn(fields, row, same)
  {
    var n, args := |identifiers|, Repeated(identifiers, |fields|);
    if ClauseHolds(fields, row, n, args) {
      var f, j :| 0 <= f < |fields| && 0 <= j < n && Slot(f, j, n) < |args| &&
                  FieldValue(row, fields[f]) == Some(args[Slot(f, j, n)]);
      RepeatedAt(identifiers, |fields|, f, j);
      assert fields[f] in fields && identifiers[j] in identifiers;
    }
    if MatchesIn(fields, row, same) {
      var field :| field in fields && FieldValue(row, field).Some? && FieldValue(row, field).value in same;
      var f :| 0 <= f < |fields| && fields[f] == field;
      var j :| 0 <= j < n && identifiers[j] == FieldValue(row, field).value;
      RepeatedAt(identifiers, |fields|, f, j);
    }
  }

  /** The fields searched, by name: the provider reference; three fields of the request; five of the response,
      at its top and under "data". */
  predicate Searched(f: Field) {
    match f
    case ProviderReference => true
    case InRequest(path) => |path| == 1 && path[0] in {"reference_id", "payment_request_id", "id"}
    case InResponse(path) =>
      && |path| in {1, 2} && (|path| == 2 ==> path[0] == "data")
      && path[|path| - 1] in {"reference_id", "payment_request_id", "payment_id", "invoice_id", "id"}
  }

  lemma FieldsExactly(f: Field)
    ensures |FIELDS| == 14 && (f in FIELDS <==> Searched(f))
  {
    if f in FIELDS {
      EachSearched(f);
    }
    if Searched(f) {
      match f
      case ProviderReference => assert FIELDS[0] == f;
      case InRequest(path) => assert path == [path[0]]; RequestListed(path[0]);
      case InResponse(path) =>
        if |path| == 1 {
          assert path == [path[0]];
          TopListed(path[0]);
        } else {
          assert path == ["data", path[1]];
          DataListed(path[1]);
        }
    }
  }

  lemma EachSearched(f: Field)
    requires f in FIELDS
    ensures Searched(f)
  {
  }

  lemma RequestListed(n: string)
    requires n in {"reference_id", "payment_request_id", "id"}
    ensures InRequest([n]) in FIELDS
  {
    var k := if n == "reference_id" then 1 else if n == "payment_request_id" then 2 else 3;
    assert FIELDS[k] == InRequest([n]);
  }

  lemma TopListed(n: string)
    requires n in {"reference_id", "payment_request_id", "payment_id", "invoice_id", "id"}
    ensures InResponse([n]) in FIELDS
  {
    var k := if n == "reference_id" then 4 else if n == "payment_request_id" then 5 else if n == "payment_id" then 6
             else if n == "invoice_id" then 7 else 8;
    assert FIELDS[k] == InResponse([n]);
  }

  lemma DataListed(n: string)
    requires n in {"reference_id", "payment_request_id", "payment_id", "invoice_id", "id"}
    ensures InResponse(["data", n]) in FIELDS
  {
    var k := if n == "reference_id" then 9 else if n == "payment_request_id" then 10 else if n == "payment_id" then 11
             else if n == "invoice_id" then 12 else 13;
    assert FIELDS[k] == InResponse(["data", n]);
  }

  /** The SQL of each kind of field. */
  lemma FieldTexts(n: string)
    ensures FieldSql(ProviderReference) == "r.provider_reference"
    ensures FieldSql(InRequest([n])) == "json_extract(r.request_json, '$." + n + "')"
    ensures FieldSql(InResponse([n])) == "json_extract(r.response_json, '$." + n + "')"
    ensures FieldSql(InResponse(["data", n])) == "json_extract(r.response_json, '$." + ("data" + "." + n) + "')"
  {
    assert ["data", n][1..] == [n];
  }

  /** What a field holds: a non-empty provider reference, or the text at the named place of the JSON. */
  lemma FieldHolds(row: Refund, n: string, text: string)
    ensures FieldValue(row, ProviderReference) == Some(text) <==> row.providerRef == text && text != ""
    ensures FieldValue(row, InRequest([n])) == Some(text) <==> TextAt(row.request, n, text)
    ensures FieldValue(row, InResponse([n])) == Some(text) <==> TextAt(row.response, n, text)
    ensures FieldValue(row, InResponse(["data", n])) == Some(text) <==>
              row.response.JObject? && "data" in row.response.fields && TextAt(row.response.fields["data"], n, text)
  {
    TextExtracted(row.request, n, text);
    TextExtracted(row.response, n, text);
    assert ["data", n][1..] == [n];
    if row.response.JObject? && "data" in row.response.fields {
      TextExtracted(row.response.fields["data"], n, text);
      assert Extract(row.response, ["data", n]) == Extract(row.response.fields["data"], [n]);
    }
  }

  lemma TextExtracted(j: Json, n: string, text: string)
    ensures Extract(j, [n]) == Some(text) <==> TextAt(j, n, text)
  {
    assert [n][1..] == [];
    if j.JObject? && n in j.fields {
      assert Extract(j, [n]) == Extract(j.fields[n], []);
    }
  }

  predicate TextAt(j: Json, n: string, text: string) {
    j.JObject? && n in j.fields && j.fields[n] == JString(text)
  }

  // ---- Reconciling ----

  /** The refunds of a provider that the identifiers find. */
  function Finder(provider: string, identifiers: seq<string>): Refund -> bool {
    (r: Refund) => r.provider == provider && Matches(r, identifiers)
  }

  /** A refund is found exactly when it is of this provider and one of the searched fields holds one of the
      identifiers. */
  lemma FinderExactly(provider: string, identifiers: seq<string>, row: Refund)
    ensures Finder(provider, identifiers)(row) <==>
              row.provider == provider &&
              exists f, s :: Searched(f) && s in identifiers && FieldValue(row, f) == Some(s)
  {
    hide Searched, FieldValue;
    if Finder(provider, identifiers)(row) {
      var f :| f in FIELDS && FieldValue(row, f).Some? && FieldValue(row, f).value in identifiers;
      FieldsExactly(f);
      assert Searched(f) && FieldValue(row, f) == Some(FieldValue(row, f).value);
    }
    if row.provider == provider && exists f, s :: Searched(f) && s in identifiers && FieldValue(row, f) == Some(s) {
      var f, s :| Searched(f) && s in identifiers && FieldValue(row, f) == Some(s);
      FieldsExactly(f);
    }
  }

  /** The refunds of a provider for which the generated clause holds. */
  function ClauseFinder(provider: string, n: nat, args: seq<string>): Refund -> bool {
    (r: Refund) => r.provider == provider && ClauseHolds(FIELDS, r, n, args)
  }

  /** Running the generated query selects the same row as the identifiers do. */
  lemma SameSelection(provider: string, identifiers: seq<string>, rows: seq<Refund>, prefer: nat)
    ensures Latest(rows, ClauseFinder(provider, |identifiers|, Repeated(identifiers, |FIELDS|)), CreationKey, prefer) ==
            Latest(rows, Finder(provider, identifiers), CreationKey, prefer)
  {
    var f, g := ClauseFinder(provider, |identifiers|, Repeated(identifiers, |FIELDS|)), Finder(provider, identifiers);
    forall i | 0 <= i < |rows| ensures f(rows[i]) == g(rows[i]) {
      ClauseMeansMatch(FIELDS, rows[i], identifiers, identifiers);
    }
    LatestSame(rows, f, g, CreationKey, prefer);
  }

  function CreationKey(r: Refund): int {
    r.createdAt
  }

  /** One reconciliation as a whole: nothing at all, or one refund row and, for a refund status, the
      status of its intent. */
  function Reconcile(db: Db, provider: string, identifiers: seq<string>, status: Status,
                     response: Option<Json>, now: int, prefer: nat, faults: set<Point>): (Db, Result<Id>)
  {
    var cleaned := EventIds.CleanParts(identifiers);
    if cleaned == [] then (db, Err(NoRows))
    else SettleLatest(db, Finder(provider, cleaned), status, response, now, prefer, faults)
  }

  /** The transaction, for any way of finding refunds. */
  function SettleLatest(db: Db, finds: Refund -> bool, status: Status, response: Option<Json>,
                        now: int, prefer: nat, faults: set<Point>): (Db, Result<Id>)
  {
    if BeginTx in faults || SelectRefund in faults then (db, Err(Failure))
    else
      match Latest(db.refunds, finds, CreationKey, prefer)
      case None => (db, Err(NoRows))
      case Some(k) => SettleRow(db, k, status, response, now, faults)
  }

  /** The writes of the transaction, for the selected row. */
  function SettleRow(db: Db, k: nat, status: Status, response: Option<Json>, now: int, faults: set<Point>)
    : (Db, Result<Id>)
    requires k < |db.refunds|
  {
    var row := db.refunds[k];
    var settled := db.(refunds := db.refunds[k := Settle(row, status, response, now)]);
    var intent := FindId(db.intents, row.intentId);
    if UpdateRefund in faults then (db, Err(Failure))
    else if IsRefundStatus(status) && UpdateIntent in faults then (db, Err(Failure))
    else if IsRefundStatus(status) && intent.None? then (db, Err(NoRows))
    else if CommitTx in faults then (db, Err(Failure))
    else if IsRefundStatus(status) then
      var i := intent.value;
      (settled.(intents := db.intents[i := db.intents[i].(status := status, updatedAt := now)]), Ok(row.id))
    else (settled, Ok(row.id))
  }

  /** The tables as the transaction's writes leave them, before a rollback. */
  function Written(db: Db, k: nat, status: Status, response: Option<Json>, now: int, faults: set<Point>): Db
    requires k < |db.refunds|
  {
    var row := db.refunds[k];
    var intent := FindId(db.intents, row.intentId);
    if UpdateRefund in faults then db
    else
      var settled := db.(refunds := db.refunds[k := Settle(row, status, response, now)]);
      if !IsRefundStatus(status) || UpdateIntent in faults || intent.None? then settled
      else
        var i := intent.value;
        settled.(intents := db.intents[i := db.intents[i].(status := status, updatedAt := now)])
  }

  /** A transaction that commits has written what it reports. */
  lemma CommittedIsWritten(db: Db, k: nat, status: Status, response: Option<Json>, now: int, faults: set<Point>)
    requires k < |db.refunds| && SettleRow(db, k, status, response, now, faults).1.Ok?
    ensures SettleRow(db, k, status, response, now, faults).0 == Written(db, k, status, response, now, faults)
  {
  }

  lemma FailedUnchanged(db: Db, finds: Refund -> bool, status: Status, response: Option<Json>,
                        now: int, prefer: nat, faults: set<Point>)
    ensures var (after, r) := SettleLatest(db, finds, status, response, now, prefer, faults);
            r.Err? ==> after == db
  {
  }

  /** The refund row after the webhook: new status, and a new response only if one was sent. */
  function Settle(row: Refund, status: Status, response: Option<Json>, now: int): Refund {
    row.(status := status, response := if response.Some? then response.value else row.response, updatedAt := now)
  }

  /** Only the status, the response, when one was sent, and the time change. */
  lemma SettledFields(row: Refund, status: Status, response: Option<Json>, now: int)
    ensures var after := Settle(row, status, response, now);
            && after.status == status && after.updatedAt == now
            && (response.Some? ==> after.response == response.value)
            && (response.None? ==> after.response == row.response)
            && after.id == row.id && after.intentId == row.intentId && after.provider == row.provider
            && after.amount == row.amount && after.request == row.request && after.providerRef == row.providerRef
            && after.createdAt == row.createdAt
  {
  }
}
