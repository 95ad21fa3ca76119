/** Webhook event ids: how providers' adapters print them and how the webhook service reads refund
    identifiers back out of them. */
module EventIds {
  import opened Text

  // ---- Printing ----

  /** The parts that count: trimmed, blank ones dropped. */
  function CleanParts(parts: seq<string>): (r: seq<string>)
    ensures forall i | 0 <= i < |r| :: r[i] != "" && Trimmed(r[i])
  {
    if parts == [] then []
    else (if Trim(parts[0]) == "" then [] else [Trim(parts[0])]) + CleanParts(parts[1..])
  }

  /** The event id printed from a list of parts. */
  function EventId(parts: seq<string>): string {
    Join(CleanParts(parts), ":")
  }

  method BuildWebhookEventID(parts: seq<string>) returns (id: string)
    ensures id == EventId(parts)
  {
    var cleaned := [];
    for i := 0 to |parts|
      invariant cleaned == CleanParts(parts[..i])
    {
      CleanNext(parts, i);
      var trimmed := Trim(parts[i]);
      if trimmed != "" {
        cleaned := cleaned + [trimmed];
      }
    }
    assert parts[..|parts|] == parts;
    id := Join(cleaned, ":");
  }

  lemma {:induction false} CleanAppend(a: seq<string>, b: seq<string>)
    ensures CleanParts(a + b) == CleanParts(a) + CleanParts(b)
  {
    if a == [] {
      assert a + b == b;
    } else {
      assert (a + b)[1..] == a[1..] + b;
      CleanAppend(a[1..], b);
    }
  }

  /** What one turn of a cleaning loop adds. */
  lemma CleanNext(parts: seq<string>, i: nat)
    requires i < |parts|
    ensures CleanParts(parts[..i + 1]) ==
            CleanParts(parts[..i]) + if Trim(parts[i]) == "" then [] else [Trim(parts[i])]
  {
    var one := [parts[i]];
    assert parts[..i + 1] == parts[..i] + one;
    CleanAppend(parts[..i], one);
    assert one[1..] == [];
  }

  /** Parts that are already clean stay as they are. */
  lemma {:induction false} CleanIsClean(parts: seq<string>)
    requires forall i | 0 <= i < |parts| :: parts[i] != "" && Trimmed(parts[i])
    ensures CleanParts(parts) == parts
  {
    if parts != [] {
      CleanIsClean(parts[1..]);
      assert parts == [parts[0]] + parts[1..];
    }
  }

  /** A part is usable exactly when trimming leaves something of it. */
  lemma {:induction false} CleanPartsSet(parts: seq<string>, s: string)
    ensures s in CleanParts(parts) <==> s != "" && exists i | 0 <= i < |parts| :: Trim(parts[i]) == s
  {
    if parts != [] {
      CleanPartsSet(parts[1..], s);
      if exists i | 0 <= i < |parts[1..]| :: Trim(parts[1..][i]) == s {
        var i :| 0 <= i < |parts[1..]| && Trim(parts[1..][i]) == s;
        assert parts[i + 1] == parts[1..][i];
      }
      if s != "" && exists i | 0 <= i < |parts| :: Trim(parts[i]) == s {
        var i :| 0 <= i < |parts| && Trim(parts[i]) == s;
        assert i > 0 ==> parts[1..][i - 1] == parts[i];
      }
    }
  }

  lemma {:induction false} JoinTrimmed(parts: seq<string>)
    requires forall i | 0 <= i < |parts| :: parts[i] != "" && Trimmed(parts[i])
    ensures Trimmed(Join(parts, ":"))
    ensures parts != [] ==> Join(parts, ":") != ""
  {
    if |parts| > 1 {
      JoinTrimmed(parts[1..]);
    }
  }

  /** A printed id has no white space at its ends, so trimming it (as the duplicate lookup does)
      leaves it alone; it is empty exactly when every part is blank. */
  lemma EventIdTrimStable(parts: seq<string>)
    ensures Trim(EventId(parts)) == EventId(parts)
    ensures EventId(parts) == "" <==> forall i | 0 <= i < |parts| :: Trim(parts[i]) == ""
  {
    JoinTrimmed(CleanParts(parts));
    if CleanParts(parts) == [] {
      forall i | 0 <= i < |parts| ensures Trim(parts[i]) == "" {
        CleanPartsSet(parts, Trim(parts[i]));
      }
    } else {
      CleanPartsSet(parts, CleanParts(parts)[0]);
    }
  }

  /** Printing is flat: an id printed from `inner` and used as one part of a longer id gives the
      same text as using the parts of `inner` directly. */
  lemma EventIdFlattens(before: seq<string>, inner: seq<string>, after: seq<string>)
    ensures EventId(before + [EventId(inner)] + after) == EventId(before + inner + after)
  {
    var b, n, a := CleanParts(before), CleanParts(inner), CleanParts(after);
    CleanAppend3(before, inner, after);
    CleanAppend3(before, [EventId(inner)], after);
    CleanOne(inner);
    if n != [] {
      JoinSplice(b, [EventId(inner)], a);
      JoinSplice(b, n, a);
    }
  }

  lemma CleanAppend3(a: seq<string>, b: seq<string>, c: seq<string>)
    ensures CleanParts(a + b + c) == CleanParts(a) + CleanParts(b) + CleanParts(c)
  {
    CleanAppend(a + b, c);
    CleanAppend(a, b);
  }

  /** An id used as a part survives cleaning, unless it is empty. */
  lemma CleanOne(inner: seq<string>)
    ensures CleanParts([EventId(inner)]) == if CleanParts(inner) == [] then [] else [EventId(inner)]
  {
    EventIdTrimStable(inner);
    JoinTrimmed(CleanParts(inner));
    assert [EventId(inner)][1..] == [];
  }

  /** A joined text depends on its middle part only through that part's own join. */
  lemma JoinSplice(b: seq<string>, n: seq<string>, a: seq<string>)
    requires n != []
    ensures Join(b + n + a, ":") ==
            (if b == [] then "" else Join(b, ":") + ":") + Join(n, ":") +
            (if a == [] then "" else ":" + Join(a, ":"))
  {
    if b == [] {
      assert b + n + a == n + a;
    } else {
      JoinAppend(b, n + a, ":");
      assert b + n + a == b + (n + a);
    }
    if a == [] {
      assert n + a == n;
    } else {
      JoinAppend(n, a, ":");
    }
  }

  // ---- When two ids coincide ----

  function AllPieces(parts: seq<string>): seq<string> {
    if parts == [] then [] else Split(parts[0]) + AllPieces(parts[1..])
  }

  /** The colon-free pieces an id is printed from. */
  function Pieces(parts: seq<string>): seq<string> {
    AllPieces(CleanParts(parts))
  }

  lemma {:induction false} PiecesJoin(parts: seq<string>)
    requires parts != []
    ensures AllPieces(parts) != [] && ColonFree(AllPieces(parts))
    ensures Join(AllPieces(parts), ":") == Join(parts, ":")
  {
    SplitJoin(parts[0]);
    if |parts| == 1 {
      assert parts[1..] == [] && Split(parts[0]) + [] == Split(parts[0]);
    } else {
      PiecesJoin(parts[1..]);
      JoinAppend(Split(parts[0]), AllPieces(parts[1..]), ":");
    }
  }

  lemma {:induction false} PlainPieces(parts: seq<string>)
    requires ColonFree(parts)
    ensures AllPieces(parts) == parts
  {
    if parts != [] {
      SplitPlain(parts[0]);
      PlainPieces(parts[1..]);
      assert [parts[0]] + parts[1..] == parts;
    }
  }

  /** Two lists of parts print the same id exactly when their pieces between colons are the same; so for
      parts without colons, exactly when the cleaned parts are the same. */
  lemma SameEventId(a: seq<string>, b: seq<string>)
    ensures EventId(a) == EventId(b) <==> Pieces(a) == Pieces(b)
    ensures ColonFree(CleanParts(a)) && ColonFree(CleanParts(b)) ==>
              (EventId(a) == EventId(b) <==> CleanParts(a) == CleanParts(b))
  {
    NonBlankId(a);
    NonBlankId(b);
    var x, y := CleanParts(a), CleanParts(b);
    if x != [] {
      PiecesJoin(x);
    }
    if y != [] {
      PiecesJoin(y);
    }
    if x != [] && y != [] && EventId(a) == EventId(b) {
      JoinInjective(AllPieces(x), AllPieces(y));
    }
    if ColonFree(x) && ColonFree(y) {
      PlainPieces(x);
      PlainPieces(y);
    }
  }

  lemma NonBlankId(parts: seq<string>)
    ensures EventId(parts) == "" <==> CleanParts(parts) == []
  {
    EventIdTrimStable(parts);
    if CleanParts(parts) != [] {
      CleanPartsSet(parts, CleanParts(parts)[0]);
    }
  }

  /** The id of a Midtrans webhook: event type, then order and transaction printed together. */
  function MidtransId(eventType: string, orderId: string, transactionId: string): string {
    var key := EventId([orderId, transactionId]);
    if key == "" then "" else EventId([eventType, key])
  }

  lemma MidtransIdTrimmed(eventType: string, orderId: string, transactionId: string)
    ensures Trim(MidtransId(eventType, orderId, transactionId)) == MidtransId(eventType, orderId, transactionId)
  {
    EventIdTrimStable([eventType, EventId([orderId, transactionId])]);
  }

  /** Webhooks about different orders can print one id: only the text around the colons counts. */
  lemma MidtransIdsCoincide(eventType: string)
    ensures MidtransId(eventType, "a:b", "c") == MidtransId(eventType, "a", "b:c") != ""
  {
    assert Trim("a:b") == "a:b" && Trim("b:c") == "b:c" && Trim("a") == "a" && Trim("c") == "c";
    EventIdOfTwo("a:b", "c");
    EventIdOfTwo("a", "b:c");
    assert "a:b" + ":" + "c" == "a" + ":" + "b:c";
    var key := EventId(["a", "b:c"]);
    CleanPartsSet([eventType, key], key);
    assert [eventType, key][1] == key && Trim(key) == key;
    EventIdTrimStable([eventType, key]);
  }

  // ---- Reading refund identifiers back ----

  /** The texts a refund webhook offers for matching, before trimming: the payment reference, the
      event id, and what follows the event id's first colon. */
  function Candidates(paymentRef: string, eventId: string): seq<string> {
    [paymentRef, eventId] +
    match Cut(eventId, ':')
    case None => []
    case Some((_, value)) => [value]
  }

  predicate NoDuplicates(s: seq<string>) {
    forall i, j | 0 <= i < j < |s| :: s[i] != s[j]
  }

  /** The identifiers a refund webhook is matched by. */
  function Identifiers(paymentRef: string, eventId: string): (r: seq<string>)
    ensures NoDuplicates(r)
    ensures forall s :: s in r <==> s in CleanParts(Candidates(paymentRef, eventId))
  {
    Distinct(CleanParts(Candidates(paymentRef, eventId)))
  }

  method RefundWebhookIdentifiers(paymentRef: string, eventId: string) returns (identifiers: seq<string>)
    ensures identifiers == Identifiers(paymentRef, eventId)
  {
    var candidates := [paymentRef, eventId];
    var cut := Cut(eventId, ':');
    if cut.Some? {
      candidates := candidates + [cut.value.1];
    }
    assert candidates == Candidates(paymentRef, eventId);
    identifiers := DistinctCleaned(candidates);
  }

  /** The loop of `refundWebhookIdentifiers`, with its `seen` set. */
  method DistinctCleaned(candidates: seq<string>) returns (identifiers: seq<string>)
    ensures identifiers == Distinct(CleanParts(candidates))
  {
    var seen: set<string> := {};
    identifiers := [];
    for i := 0 to |candidates|
      invariant identifiers == Distinct(CleanParts(candidates[..i]))
      invariant forall s :: s in seen <==> s in identifiers
    {
      var trimmed := Trim(candidates[i]);
      CleanNext(candidates, i);
      DistinctNext(CleanParts(candidates[..i]), trimmed);
      if trimmed == "" {
        assert CleanParts(candidates[..i + 1]) == CleanParts(candidates[..i]);
        continue;
      }
      if trimmed in seen {
        continue;
      }
      seen := seen + {trimmed};
      identifiers := identifiers + [trimmed];
    }
    assert candidates[..|candidates|] == candidates;
  }

  /** First occurrences, in order. */
  function Distinct(s: seq<string>): (r: seq<string>)
    ensures NoDuplicates(r)
    ensures forall x :: x in r <==> x in s
  {
    if s == [] then []
    else
      var init := Distinct(s[..|s| - 1]);
      assert s == s[..|s| - 1] + [s[|s| - 1]];
      if s[|s| - 1] in init then init else init + [s[|s| - 1]]
  }

  lemma DistinctNext(s: seq<string>, x: string)
    ensures Distinct(s + [x]) == if x in s then Distinct(s) else Distinct(s) + [x]
  {
    assert (s + [x])[..|s + [x]| - 1] == s;
  }

  lemma EventIdOfTwo(eventType: string, objectId: string)
    requires Trim(eventType) != "" && Trim(objectId) != ""
    ensures EventId([eventType, objectId]) == Trim(eventType) + ":" + Trim(objectId)
    ensures Trimmed(EventId([eventType, objectId]))
  {
    var parts := [eventType, objectId];
    EventIdTrimStable(parts);
    CleanNext(parts, 0);
    CleanNext(parts, 1);
    assert parts[..2] == parts && CleanParts(parts) == [Trim(eventType), Trim(objectId)];
    JoinAppend([Trim(eventType)], [Trim(objectId)], ":");
    assert [Trim(eventType)] + [Trim(objectId)] == [Trim(eventType), Trim(objectId)];
  }

  lemma ColonInside(before: string, after: string, o: string)
    ensures before + [':'] + after + ":" + o == before + [':'] + (after + (":" + o))
  {
  }

  lemma TrimAfterColon(after: string, o: string)
    requires Trimmed(o) && o != ""
    ensures |Trim(after + (":" + o))| > |o|
  {
    var tail := ":" + o;
    assert tail[0] == ':' && tail[|tail| - 1] == o[|o| - 1];
    TrimKeepsTail(after, tail);
  }

  /** With a colon inside the event type, what follows the first colon is longer than the object id. */
  lemma CutInsideType(t: string, o: string)
    requires ':' in t && Trimmed(o) && o != ""
    ensures Cut(t + ":" + o, ':').Some? && Trim(Cut(t + ":" + o, ':').value.1) != o
  {
    var (before, after) := Cut(t, ':').value;
    ColonInside(before, after, o);
    CutAt(before, ':', after + (":" + o));
    TrimAfterColon(after, o);
  }

  lemma {:induction false} CutOfTwo(t: string, o: string)
    requires Trimmed(o) && o != ""
    ensures Cut(t + ":" + o, ':').Some?
    ensures Trim(Cut(t + ":" + o, ':').value.1) == o <==> ':' !in t
  {
    if ':' in t {
      CutInsideType(t, o);
    } else {
      CutAt(t, ':', o);
    }
  }

  lemma {:induction false} CleanThree(a: string, b: string, c: string, s: string)
    requires s != ""
    ensures s in CleanParts([a, b, c]) <==> s == Trim(a) || s == Trim(b) || s == Trim(c)
  {
    var parts := [a, b, c];
    CleanPartsSet(parts, s);
    assert parts[0] == a && parts[1] == b && parts[2] == c;
  }

  /** Which texts can be identifiers: the trimmed reference, the id, and the trimmed text after its colon. */
  lemma IdentifierIs(paymentRef: string, id: string, o: string)
    requires Cut(id, ':').Some? && o != ""
    ensures o in Identifiers(paymentRef, id) <==>
            o == Trim(paymentRef) || o == Trim(id) || o == Trim(Cut(id, ':').value.1)
  {
    var after := Cut(id, ':').value.1;
    assert Candidates(paymentRef, id) == [paymentRef, id, after];
    CleanThree(paymentRef, id, after, o);
  }

  /** Round trip, exactly. An id printed from a non-blank event type and a non-blank object id gives
      the object id back as an identifier if and only if the event type has no colon (or the payment
      reference happens to be the object id); every identifier is trimmed, non-blank and listed once. */
  lemma {:induction false} RefundIdRoundTrip(paymentRef: string, eventType: string, objectId: string)
    requires Trim(eventType) != "" && Trim(objectId) != ""
    ensures var ids := Identifiers(paymentRef, EventId([eventType, objectId]));
            && NoDuplicates(ids)
            && (forall s | s in ids :: s != "" && Trimmed(s))
            && (Trim(objectId) in ids <==> ':' !in Trim(eventType) || Trim(paymentRef) == Trim(objectId))
  {
    EventIdOfTwo(eventType, objectId);
    PrintedIdentifiers(paymentRef, EventId([eventType, objectId]), Trim(eventType), Trim(objectId));
  }

  /** The condition is needed: with a colon in the event type the object id is lost. */
  lemma ColonTypeLosesId()
    ensures "o" !in Identifiers("", EventId(["refund:done", "o"]))
  {
    assert Trim("refund:done") == "refund:done" && Trim("o") == "o" && Trim("") == "";
    assert "refund:done"[6] == ':';
    RefundIdRoundTrip("", "refund:done", "o");
  }

  lemma PrintedIdentifiers(paymentRef: string, id: string, t: string, o: string)
    requires id == t + ":" + o && Trimmed(id) && Trimmed(o) && o != ""
    ensures var ids := Identifiers(paymentRef, id);
            && NoDuplicates(ids)
            && (forall s | s in ids :: s != "" && Trimmed(s))
            && (o in ids <==> ':' !in t || Trim(paymentRef) == o)
  {
    CutOfTwo(t, o);
    IdentifierIs(paymentRef, id, o);
    IdentifiersTrimmed(paymentRef, id);
  }

  /** The identifiers, exactly: the payment reference, the event id, and what follows the id's first colon,
      each trimmed, as far as they are not blank. */
  lemma IdentifiersExactly(paymentRef: string, eventId: string, s: string)
    ensures s in Identifiers(paymentRef, eventId) <==>
              s != "" && (s == Trim(paymentRef) || s == Trim(eventId) || AfterColon(eventId, s))
  {
    var c := Candidates(paymentRef, eventId);
    CleanPartsSet(c, s);
    assert c[0] == paymentRef && c[1] == eventId;
    if AfterColon(eventId, s) {
      var before, after :| eventId == before + [':'] + after && ':' !in before && s == Trim(after);
      CutAt(before, ':', after);
      assert c[2] == after;
    }
    if |c| > 2 {
      var cut := Cut(eventId, ':').value;
      assert c[2] == cut.1 && eventId == cut.0 + [':'] + cut.1;
    }
  }

  /** The text is what follows the first colon, trimmed. */
  ghost predicate AfterColon(id: string, s: string) {
    exists before, after :: id == before + [':'] + after && ':' !in before && s == Trim(after)
  }

  lemma IdentifiersTrimmed(paymentRef: string, id: string)
    ensures forall s | s in Identifiers(paymentRef, id) :: s != "" && Trimmed(s)
  {
    var cleaned := CleanParts(Candidates(paymentRef, id));
    assert forall s | s in cleaned :: s != "" && Trimmed(s);
  }
}
