/** The create and refund handlers' use of the idempotency cache: read by cache key, ask the payment
    service on a miss, store the response of a success. */
module CreateHandler {
  import opened Text
  import opened BoundedTables
  import opened IdempotencyCache

  // ---- Cache keys ----

  function TrimAll(parts: seq<string>): seq<string> {
    if parts == [] then [] else TrimAll(parts[..|parts| - 1]) + [Trim(parts[|parts| - 1])]
  }

  /** Empty, and so never cached, without an idempotency key. */
  function CacheKey(operation: string, key: string, refs: seq<string>): string {
    if Trim(key) == "" || refs == [] then ""
    else operation + ":" + Trim(key) + ":" + Join(TrimAll(refs), ":")
  }

  method IdempotencyCacheKey(operation: string, key: string, refs: seq<string>) returns (r: string)
    ensures r == CacheKey(operation, key, refs)
  {
    if Trim(key) == "" {
      return "";
    }
    if |refs| == 0 {
      return "";
    }
    var normalized := [];
    for i := 0 to |refs|
      invariant normalized == TrimAll(refs[..i])
    {
      assert refs[..i + 1][..i] == refs[..i];
      normalized := normalized + [Trim(refs[i])];
    }
    assert refs[..|refs|] == refs;
    r := operation + ":" + Trim(key) + ":" + Join(normalized, ":");
  }

  /** The parts of a cache key: operation, idempotency key, references. */
  function KeyParts(operation: string, key: string, refs: seq<string>): seq<string> {
    [operation, Trim(key)] + TrimAll(refs)
  }

  lemma CacheKeyParts(operation: string, key: string, refs: seq<string>)
    requires Trim(key) != "" && refs != []
    ensures CacheKey(operation, key, refs) == Join(KeyParts(operation, key, refs), ":")
  {
    hide Trim;
    var rest := TrimAll(refs);
    assert [operation, Trim(key)] + rest == [operation] + ([Trim(key)] + rest);
    JoinAppend([Trim(key)], rest, ":");
    JoinAppend([operation], [Trim(key)] + rest, ":");
    JoinRegroup(operation, ":", Trim(key), Join(rest, ":"));
  }

  /** When no part contains a colon once trimmed, two requests of either operation share a cache key
      exactly when operation, idempotency key and references agree up to trimming. */
  lemma {:induction false} CacheKeyInjective(op1: string, k1: string, refs1: seq<string>, op2: string, k2: string,
                                             refs2: seq<string>)
    requires Trim(k1) != "" && Trim(k2) != "" && refs1 != [] && refs2 != []
    requires ColonFree(KeyParts(op1, k1, refs1)) && ColonFree(KeyParts(op2, k2, refs2))
    ensures CacheKey(op1, k1, refs1) == CacheKey(op2, k2, refs2) <==>
              op1 == op2 && Trim(k1) == Trim(k2) && TrimAll(refs1) == TrimAll(refs2)
  {
    hide Trim, CacheKey;
    var a, b := KeyParts(op1, k1, refs1), KeyParts(op2, k2, refs2);
    CacheKeyParts(op1, k1, refs1);
    CacheKeyParts(op2, k2, refs2);
    assert a[0] == op1 && a[1] == Trim(k1) && a[2..] == TrimAll(refs1);
    assert b[0] == op2 && b[1] == Trim(k2) && b[2..] == TrimAll(refs2);
    if CacheKey(op1, k1, refs1) == CacheKey(op2, k2, refs2) {
      JoinInjective(a, b);
    }
  }

  /** Without an idempotency key, or without references, there is no cache key, and with a blank one nothing
      is looked up or stored: every such request is asked. */
  lemma NoKeyNoCache<V>(operation: string, key: string, refs: seq<string>, t: Table<V>, r: Request<V>)
    requires Trim(key) == "" || refs == []
    requires r.key == CacheKey(operation, key, refs)
    ensures r.key == "" && Asks(t, r) && Response(t, r) == r.result && After(t, r) == t
  {
  }

  /** A cache key, written out. */
  lemma CacheKeyExample()
    ensures CacheKey("payments/create", " k ", ["r ", "xendit", "sandbox"]) == "payments/create:k:r:xendit:sandbox"
  {
    hide Trim, Join, TrimAll;
    ExampleTrims();
    TrimAllThree("r ", "xendit", "sandbox");
    JoinThree("r", "xendit", "sandbox");
    ExampleJoins();
  }

  lemma ExampleJoins()
    ensures "payments/create" + ":" + "k" + ":" + ("r" + [':'] + "xendit" + [':'] + "sandbox") ==
            "payments/create:k:r:xendit:sandbox"
  {
  }

  lemma ExampleTrims()
    ensures Trim(" k ") == "k" && Trim("r ") == "r" && Trim("xendit") == "xendit" && Trim("sandbox") == "sandbox"
  {
    assert " k "[1..] == "k " && "k "[..1] == "k" && "r "[..1] == "r";
  }

  /** White space around an idempotency key does not matter. */
  lemma CacheKeyIgnoresPadding(operation: string, before: string, key: string, after: string, refs: seq<string>)
    requires AllSpace(before) && AllSpace(after) && Trimmed(key)
    ensures CacheKey(operation, before + key + after, refs) == CacheKey(operation, key, refs)
  {
    TrimAround(before, key, after);
  }

  function CreateKey(key: string, reference: string, provider: string, environment: string): string {
    CacheKey("payments/create", key, [reference, provider, environment])
  }

  lemma CreateKeyText(key: string, reference: string, provider: string, environment: string)
    requires Trim(key) != "" && Trimmed(provider) && Trimmed(environment)
    ensures CreateKey(key, reference, provider, environment) ==
            "payments/create:" + (Trim(key) + [':'] + Trim(reference) + [':'] + provider + [':'] + environment)
  {
    TrimAllThree(reference, provider, environment);
    JoinThree(Trim(reference), provider, environment);
    Regroup(Trim(key), Trim(reference), provider, environment);
  }

  lemma TrimAllThree(a: string, b: string, c: string)
    ensures TrimAll([a, b, c]) == [Trim(a), Trim(b), Trim(c)]
  {
    var refs := [a, b, c];
    assert refs[..2] == [a, b] && [a, b][..1] == [a] && [a][..0] == [];
    assert TrimAll([a]) == [Trim(a)];
    assert TrimAll([a, b]) == [Trim(a), Trim(b)];
  }

  lemma JoinThree(a: string, b: string, c: string)
    ensures Join([a, b, c], ":") == a + [':'] + b + [':'] + c
  {
    JoinAppend([a], [b, c], ":");
    JoinAppend([b], [c], ":");
    assert [a] + [b, c] == [a, b, c] && [b] + [c] == [b, c];
    assert a + ":" + (b + ":" + c) == a + [':'] + b + [':'] + c;
  }

  lemma Regroup(k: string, r: string, p: string, e: string)
    ensures "payments/create" + ":" + k + ":" + (r + [':'] + p + [':'] + e) ==
            "payments/create:" + (k + [':'] + r + [':'] + p + [':'] + e)
  {
    assert "payments/create" + ":" == "payments/create:";
  }

  /** A text has one last colon. */
  lemma LastColon(a: string, x: string, b: string, y: string)
    requires ':' !in x && ':' !in y && a + [':'] + x == b + [':'] + y
    ensures a == b && x == y
  {
    var s := a + [':'] + x;
    forall k | |a| < k < |s| ensures s[k] != ':' {
      assert s[k] == x[k - |a| - 1];
    }
    var s' := b + [':'] + y;
    forall k | |b| < k < |s'| ensures s'[k] != ':' {
      assert s'[k] == y[k - |b| - 1];
    }
    assert s[|a|] == ':' && s'[|b|] == ':';
    assert |a| == |b|;
    assert a == s[..|a|] && x == s[|a| + 1..];
  }

  /** When two create requests share a cache key. Providers and environments contain no colon; then the
      keys are equal exactly when provider and environment agree and the idempotency key and reference
      read the same once joined by a colon. */
  lemma {:induction false} CreateKeyCollision(k1: string, r1: string, p1: string, e1: string, k2: string, r2: string,
                                              p2: string, e2: string)
    requires Trim(k1) != "" && Trim(k2) != ""
    requires Trimmed(p1) && Trimmed(e1) && Trimmed(p2) && Trimmed(e2)
    requires ':' !in p1 && ':' !in e1 && ':' !in p2 && ':' !in e2
    ensures CreateKey(k1, r1, p1, e1) == CreateKey(k2, r2, p2, e2) <==>
              p1 == p2 && e1 == e2 && Trim(k1) + [':'] + Trim(r1) == Trim(k2) + [':'] + Trim(r2)
  {
    CreateKeyText(k1, r1, p1, e1);
    CreateKeyText(k2, r2, p2, e2);
    var s1, s2 := Trim(k1) + [':'] + Trim(r1), Trim(k2) + [':'] + Trim(r2);
    var t1, t2 := s1 + [':'] + p1 + [':'] + e1, s2 + [':'] + p2 + [':'] + e2;
    SamePrefix("payments/create:", t1, t2);
    if t1 == t2 {
      LastColon(s1 + [':'] + p1, e1, s2 + [':'] + p2, e2);
      LastColon(s1, p1, s2, p2);
    }
  }

  lemma SamePrefix(p: string, a: string, b: string)
    ensures p + a == p + b <==> a == b
  {
    assert a == (p + a)[|p|..] && b == (p + b)[|p|..];
  }

  /** With colon-free idempotency keys, equal cache keys mean equal requests. */
  lemma {:induction false} CreateKeyInjective(k1: string, r1: string, p1: string, e1: string, k2: string, r2: string,
                                              p2: string, e2: string)
    requires Trim(k1) != "" && Trim(k2) != "" && ':' !in Trim(k1) && ':' !in Trim(k2)
    requires Trimmed(p1) && Trimmed(e1) && Trimmed(p2) && Trimmed(e2)
    requires ':' !in p1 && ':' !in e1 && ':' !in p2 && ':' !in e2
    requires CreateKey(k1, r1, p1, e1) == CreateKey(k2, r2, p2, e2)
    ensures Trim(k1) == Trim(k2) && Trim(r1) == Trim(r2) && p1 == p2 && e1 == e2
  {
    CreateKeyCollision(k1, r1, p1, e1, k2, r2, p2, e2);
    CutAt(Trim(k1), ':', Trim(r1));
    CutAt(Trim(k2), ':', Trim(r2));
  }

  /** Without that, different requests can share a response. */
  lemma CreateKeysCanCollide()
    ensures CreateKey("a", "b:c", "xendit", "sandbox") == CreateKey("a:b", "c", "xendit", "sandbox")
  {
    assert Trim("a") == "a" && Trim("b:c") == "b:c" && Trim("a:b") == "a:b" && Trim("c") == "c";
    assert ':' !in "xendit" && ':' !in "sandbox";
    assert "a" + [':'] + "b:c" == "a:b" + [':'] + "c";
    CreateKeyCollision("a", "b:c", "xendit", "sandbox", "a:b", "c", "xendit", "sandbox");
  }

  // ---- Refund keys ----

  /** A decimal digit. */
  function DigitChar(d: nat): char
    requires d < 10
  {
    '0' + d as char
  }

  function Digits(n: nat): (r: string)
    ensures r != "" && forall i | 0 <= i < |r| :: '0' <= r[i] <= '9'
  {
    if n < 10 then [DigitChar(n)] else Digits(n / 10) + [DigitChar(n % 10)]
  }

  /** `strconv.FormatInt(amount, 10)`. */
  function Decimal(amount: int): (r: string)
    ensures r != "" && ':' !in r && Trimmed(r)
  {
    if amount < 0 then "-" + Digits(-amount) else Digits(amount)
  }

  lemma {:induction false} DigitsInjective(m: nat, n: nat)
    requires Digits(m) == Digits(n)
    ensures m == n
  {
    var s := Digits(m);
    assert s[|s| - 1] == DigitChar(m % 10) == DigitChar(n % 10);
    if m >= 10 && n >= 10 {
      assert Digits(m / 10) == s[..|s| - 1] == Digits(n / 10);
      DigitsInjective(m / 10, n / 10);
    } else if m >= 10 || n >= 10 {
      assert |Digits(m / 10)| > 0 && |Digits(n / 10)| > 0;
    }
  }

  lemma DecimalInjective(a: int, b: int)
    requires Decimal(a) == Decimal(b)
    ensures a == b
  {
    var x, y := Digits(if a < 0 then -a else a), Digits(if b < 0 then -b else b);
    assert x[0] != '-' && y[0] != '-';
    assert a < 0 ==> Decimal(a)[0] == '-' && Decimal(a)[1..] == x;
    assert b < 0 ==> Decimal(b)[0] == '-' && Decimal(b)[1..] == y;
    assert x == y && (a < 0 <==> b < 0);
    DigitsInjective(if a < 0 then -a else a, if b < 0 then -b else b);
  }

  /** A refund request, as far as its cache key goes. */
  datatype RefundRequest = RefundRequest(
    key: string, reference: string, provider: string, refundReference: string, amount: int)

  function RefundKey(q: RefundRequest): string {
    CacheKey("payments/refund", q.key, [q.reference, q.provider, q.refundReference, Decimal(q.amount)])
  }

  /** Key and references joined by colons, without the amount. */
  function RefundText(q: RefundRequest): string {
    Trim(q.key) + [':'] + Trim(q.reference) + [':'] + Trim(q.provider) + [':'] + Trim(q.refundReference)
  }

  lemma TrimAllFour(a: string, b: string, c: string, d: string)
    ensures TrimAll([a, b, c, d]) == [Trim(a), Trim(b), Trim(c), Trim(d)]
  {
    hide Trim;
    TrimAllThree(a, b, c);
    assert [a, b, c, d][..3] == [a, b, c];
  }

  lemma RefundKeyText(q: RefundRequest)
    requires Trim(q.key) != ""
    ensures RefundKey(q) == "payments/refund:" + (RefundText(q) + [':'] + Decimal(q.amount))
  {
    hide Trim;
    var r, p, f, a := Trim(q.reference), Trim(q.provider), Trim(q.refundReference), Decimal(q.amount);
    TrimAllFour(q.reference, q.provider, q.refundReference, a);
    assert Trim(a) == a;
    JoinThree(r, p, f);
    JoinAppend([r, p, f], [a], ":");
    assert [r, p, f] + [a] == [r, p, f, a] && Join([a], ":") == a;
    RegroupRefund(Trim(q.key), r, p, f, a);
  }

  lemma RegroupRefund(k: string, r: string, p: string, f: string, a: string)
    ensures "payments/refund" + ":" + k + ":" + (r + [':'] + p + [':'] + f + ":" + a) ==
            "payments/refund:" + (k + [':'] + r + [':'] + p + [':'] + f + [':'] + a)
  {
    assert "payments/refund" + ":" == "payments/refund:";
  }

  /** When two refund requests share a cache key: exactly when the amounts are equal and idempotency key,
      reference, provider and refund reference read the same once joined by colons. */
  lemma RefundKeyCollision(q1: RefundRequest, q2: RefundRequest)
    requires Trim(q1.key) != "" && Trim(q2.key) != ""
    ensures RefundKey(q1) == RefundKey(q2) <==> q1.amount == q2.amount && RefundText(q1) == RefundText(q2)
  {
    hide RefundKey, RefundText, Decimal;
    RefundKeyText(q1);
    RefundKeyText(q2);
    var s1, s2, a1, a2 := RefundText(q1), RefundText(q2), Decimal(q1.amount), Decimal(q2.amount);
    SamePrefix("payments/refund:", s1 + [':'] + a1, s2 + [':'] + a2);
    if s1 + [':'] + a1 == s2 + [':'] + a2 {
      LastColon(s1, a1, s2, a2);
      DecimalInjective(q1.amount, q2.amount);
    }
  }

  /** What a caller can check beforehand: idempotency keys and providers have no colon, and either no
      reference or no refund reference has one. */
  predicate Separable(q1: RefundRequest, q2: RefundRequest) {
    && ColonFree([Trim(q1.key), Trim(q2.key), Trim(q1.provider), Trim(q2.provider)])
    && (ColonFree([Trim(q1.reference), Trim(q2.reference)]) ||
        ColonFree([Trim(q1.refundReference), Trim(q2.refundReference)]))
  }

  lemma SeparableText(q1: RefundRequest, q2: RefundRequest)
    requires Separable(q1, q2)
    ensures ':' !in Trim(q1.key) && ':' !in Trim(q2.key) && ':' !in Trim(q1.provider) && ':' !in Trim(q2.provider)
    ensures (':' !in Trim(q1.reference) && ':' !in Trim(q2.reference)) ||
            (':' !in Trim(q1.refundReference) && ':' !in Trim(q2.refundReference))
  {
    hide Trim;
    var names := [Trim(q1.key), Trim(q2.key), Trim(q1.provider), Trim(q2.provider)];
    assert ':' !in names[0] && ':' !in names[1] && ':' !in names[2] && ':' !in names[3];
    var r, f := [Trim(q1.reference), Trim(q2.reference)], [Trim(q1.refundReference), Trim(q2.refundReference)];
    if ColonFree(r) {
      assert ':' !in r[0] && ':' !in r[1];
    } else {
      assert ':' !in f[0] && ':' !in f[1];
    }
  }

  lemma FirstColon(a: string, x: string, b: string, y: string)
    requires ':' !in a && ':' !in b && a + [':'] + x == b + [':'] + y
    ensures a == b && x == y
  {
    CutAt(a, ':', x);
    CutAt(b, ':', y);
  }

  /** Then equal cache keys mean equal requests. */
  lemma RefundKeyInjective(q1: RefundRequest, q2: RefundRequest)
    requires Trim(q1.key) != "" && Trim(q2.key) != "" && Separable(q1, q2) && RefundKey(q1) == RefundKey(q2)
    ensures Trim(q1.key) == Trim(q2.key) && Trim(q1.reference) == Trim(q2.reference)
    ensures Trim(q1.provider) == Trim(q2.provider) && Trim(q1.refundReference) == Trim(q2.refundReference)
    ensures q1.amount == q2.amount
  {
    hide Trim, RefundKey, Separable;
    RefundKeyCollision(q1, q2);
    SeparableText(q1, q2);
    FourParts(Trim(q1.key), Trim(q1.reference), Trim(q1.provider), Trim(q1.refundReference),
              Trim(q2.key), Trim(q2.reference), Trim(q2.provider), Trim(q2.refundReference));
  }

  lemma FourParts(k1: string, r1: string, p1: string, f1: string, k2: string, r2: string, p2: string, f2: string)
    requires k1 + [':'] + r1 + [':'] + p1 + [':'] + f1 == k2 + [':'] + r2 + [':'] + p2 + [':'] + f2
    requires ':' !in k1 && ':' !in k2 && ':' !in p1 && ':' !in p2
    requires (':' !in r1 && ':' !in r2) || (':' !in f1 && ':' !in f2)
    ensures k1 == k2 && r1 == r2 && p1 == p2 && f1 == f2
  {
    if ':' !in f1 && ':' !in f2 {
      LastColon(k1 + [':'] + r1 + [':'] + p1, f1, k2 + [':'] + r2 + [':'] + p2, f2);
      LastColon(k1 + [':'] + r1, p1, k2 + [':'] + r2, p2);
      FirstColon(k1, r1, k2, r2);
    } else {
      FromLeft(k1, r1, p1, f1);
      FromLeft(k2, r2, p2, f2);
      FirstColon(k1, r1 + [':'] + (p1 + [':'] + f1), k2, r2 + [':'] + (p2 + [':'] + f2));
      FirstColon(r1, p1 + [':'] + f1, r2, p2 + [':'] + f2);
      FirstColon(p1, f1, p2, f2);
    }
  }

  lemma FromLeft(k: string, r: string, p: string, f: string)
    ensures k + [':'] + r + [':'] + p + [':'] + f == k + [':'] + (r + [':'] + (p + [':'] + f))
  {
  }

  lemma TrimmedLiterals()
    ensures Trim("k") == "k" && Trim("r") == "r" && Trim("y") == "y" && Trim("xendit") == "xendit"
    ensures Trim("r:xendit") == "r:xendit" && Trim("xendit:y") == "xendit:y"
  {
  }

  const ONE_REFUND := RefundRequest("k", "r", "xendit", "xendit:y", 5)

  const OTHER_REFUND := RefundRequest("k", "r:xendit", "xendit", "y", 5)

  /** A colon-free idempotency key is not enough: refunds of two different payments share a cache key when
      both a reference and a refund reference contain colons. */
  lemma RefundKeysCanCollide()
    ensures ONE_REFUND.reference != OTHER_REFUND.reference && RefundKey(ONE_REFUND) == RefundKey(OTHER_REFUND)
  {
    hide Trim, RefundKey;
    TrimmedLiterals();
    assert "k" + [':'] + "r" + [':'] + "xendit" + [':'] + "xendit:y" ==
           "k" + [':'] + "r:xendit" + [':'] + "xendit" + [':'] + "y";
    RefundKeyCollision(ONE_REFUND, OTHER_REFUND);
  }

  // ---- Handling requests ----

  /** One request: its cache key, when it is looked up, what the service would answer (None for an
      error), when that is stored, and the entries the eviction loop happens to delete then. */
  datatype Request<+V> = Request(key: string, readAt: nat, result: Option<V>, writeAt: nat, evicted: set<string>)

  class Handler<V> {
    const cache: Cache<V>

    constructor (cache: Cache<V>)
      ensures this.cache == cache
    {
      this.cache := cache;
    }

    /** `result` and `writeAt` matter only when the service is asked. */
    method Handle(key: string, readAt: nat, result: Option<V>, writeAt: nat)
      returns (response: Option<V>, asked: bool, ghost evicted: set<string>)
      modifies cache
      ensures var r := Request(key, readAt, result, writeAt, evicted);
              && asked == Asks(old(cache.entries), r)
              && response == Response(old(cache.entries), r)
              && cache.entries == After(old(cache.entries), r)
    {
      evicted := {};
      asked := false;
      response := cache.ReadIdempotent(key, readAt);
      if response.Some? {
        return;
      }
      asked := true;
      response := result;
      if response.Some? {
        evicted := cache.WriteIdempotent(key, response.value, writeAt);
      }
    }
  }

  /** The payment service is asked. */
  predicate Asks<V>(t: Table<V>, r: Request<V>) {
    ReadStep(t, r.key, r.readAt).1.None?
  }

  function Response<V>(t: Table<V>, r: Request<V>): Option<V> {
    if Asks(t, r) then r.result else ReadStep(t, r.key, r.readAt).1
  }

  /** The cache operations of one request. */
  function OpsOf<V>(t: Table<V>, r: Request<V>): seq<Op<V>> {
    if Asks(t, r) && r.result.Some?
    then [Read(r.key, r.readAt), Write(r.key, r.result.value, r.writeAt, r.evicted)]
    else [Read(r.key, r.readAt)]
  }

  function After<V>(t: Table<V>, r: Request<V>): Table<V> {
    var t1 := ReadStep(t, r.key, r.readAt).0;
    if Asks(t, r) && r.result.Some? then WriteStep(t1, r.key, r.result.value, r.writeAt, r.evicted) else t1
  }

  /** The cache operations of a run of requests, starting with an empty cache. */
  function Ops<V>(run: seq<Request<V>>): seq<Op<V>> {
    if run == [] then []
    else
      var before := Ops(run[..|run| - 1]);
      before + OpsOf(State(before), run[|run| - 1])
  }

  lemma OpsNext<V>(run: seq<Request<V>>, i: nat)
    requires i < |run|
    ensures Ops(run[..i + 1]) == Ops(run[..i]) + OpsOf(State(Ops(run[..i])), run[i])
  {
    assert run[..i + 1][..i] == run[..i];
  }

  /** The table after the operations is the table the handler leaves. */
  lemma OpsRun<V>(ops: seq<Op<V>>, r: Request<V>)
    ensures State(ops + OpsOf(State(ops), r)) == After(State(ops), r)
  {
    var read := Read(r.key, r.readAt);
    assert (ops + [read])[..|ops|] == ops;
    if Asks(State(ops), r) && r.result.Some? {
      var write := Write(r.key, r.result.value, r.writeAt, r.evicted);
      assert ops + [read, write] == ops + [read] + [write];
      assert (ops + [read] + [write])[..|ops| + 1] == ops + [read];
    }
  }

  /** The table the handler leaves after a run, request by request, starting with an empty cache. */
  function TableAfter<V>(run: seq<Request<V>>): Table<V> {
    if run == [] then map[] else After(TableAfter(run[..|run| - 1]), run[|run| - 1])
  }

  /** Handling the requests one by one leaves the table that their cache operations leave, so what is proved
      below of the operations holds of the handler. */
  lemma {:induction false} HandlerRefinesOps<V>(run: seq<Request<V>>)
    ensures TableAfter(run) == State(Ops(run))
  {
    hide After, OpsOf, State;
    if run == [] {
      NothingYet<V>();
    } else {
      var before := run[..|run| - 1];
      HandlerRefinesOps(before);
      OpsRun(Ops(before), run[|run| - 1]);
    }
  }

  lemma NothingYet<V>()
    ensures State<V>([]) == map[]
  {
  }

  lemma LastWriteNext<V>(ops: seq<Op<V>>, r: Request<V>, key: string)
    requires Trim(key) != ""
    ensures LastWrite(ops + OpsOf(State(ops), r), key) ==
            if !(Asks(State(ops), r) && r.result.Some?) || Trim(r.key) == "" then LastWrite(ops, key)
            else if r.key == key then Some((r.result.value, r.writeAt))
            else if key in r.evicted then None
            else LastWrite(ops, key)
  {
    var read := Read(r.key, r.readAt);
    assert (ops + [read])[..|ops|] == ops;
    if Asks(State(ops), r) && r.result.Some? {
      var write := Write(r.key, r.result.value, r.writeAt, r.evicted);
      assert ops + [read, write] == ops + [read] + [write];
      assert (ops + [read] + [write])[..|ops| + 1] == ops + [read];
    }
  }

  /** A run in which the clock never goes back and evictions are ones the loop can make. */
  ghost predicate PossibleRun<V>(run: seq<Request<V>>) {
    && (forall i | 0 <= i <= |run| :: Possible(Ops(run[..i])))
    && (forall i | 0 <= i < |run| :: LatestTime(Ops(run[..i])) <= run[i].readAt <= run[i].writeAt)
    && (forall i, j | 0 <= i < j < |run| :: run[i].readAt <= run[j].readAt)
  }

  /** Request i asks the service and the service succeeds. */
  predicate Succeeds<V>(run: seq<Request<V>>, i: nat)
    requires i < |run|
  {
    Asks(TableAfter(run[..i]), run[i]) && run[i].result.Some?
  }

  /** The service is asked exactly when no response is remembered: none was stored for the key, it is
      more than ten minutes old, or its entry was evicted. Otherwise the stored response is returned. */
  lemma AskedExactly<V>(run: seq<Request<V>>, i: nat)
    requires PossibleRun(run) && i < |run|
    ensures var remembered := Remembered(Ops(run[..i]), run[i].key, run[i].readAt);
            && (Asks(TableAfter(run[..i]), run[i]) <==> remembered.None?)
            && Response(TableAfter(run[..i]), run[i]) == if remembered.Some? then remembered else run[i].result
  {
    HandlerRefinesOps(run[..i]);
    CacheExact(Ops(run[..i]), run[i].key, run[i].readAt);
  }

  /** After a success under a key, and until an eviction of the key or the end of ten minutes, that
      success stays the last write. */
  lemma {:induction false} SuccessRemembered<V>(run: seq<Request<V>>, i: nat, j: nat)
    requires PossibleRun(run) && i < j < |run| && Trim(run[i].key) != "" && Succeeds(run, i)
    requires forall m | i < m < j :: run[i].key !in run[m].evicted
    requires run[j].readAt <= run[i].writeAt + TTL
    ensures LastWrite(Ops(run[..j]), run[i].key) == Some((run[i].result.value, run[i].writeAt))
  {
    hide Asks, Possible, State, TableAfter, OpsOf, Ops, LastWrite, Trim, Response;
    OpsNext(run, j - 1);
    HandlerRefinesOps(run[..j - 1]);
    LastWriteNext(Ops(run[..j - 1]), run[j - 1], run[i].key);
    if i < j - 1 {
      SuccessRemembered(run, i, j - 1);
      if run[j - 1].key == run[i].key {
        AskedExactly(run, j - 1);
      }
    }
  }

  /** A later request under the same key, within ten minutes of a success and without an eviction of the
      key in between, does not reach the service and returns the same response. */
  lemma LaterRequestReplays<V>(run: seq<Request<V>>, i: nat, j: nat)
    requires PossibleRun(run) && i < j < |run| && Trim(run[i].key) != "" && Succeeds(run, i)
    requires run[j].key == run[i].key && run[j].readAt <= run[i].writeAt + TTL
    requires forall m | i < m < j :: run[i].key !in run[m].evicted
    ensures !Asks(TableAfter(run[..j]), run[j])
    ensures Response(TableAfter(run[..j]), run[j]) == run[i].result
  {
    SuccessRemembered(run, i, j);
    AskedExactly(run, j);
  }

  function Successes<V>(run: seq<Request<V>>, key: string, n: nat): nat
    requires n <= |run|
  {
    if n == 0 then 0
    else Successes(run, key, n - 1) + if run[n - 1].key == key && Succeeds(run, n - 1) then 1 else 0
  }

  lemma {:induction false} SomeSuccess<V>(run: seq<Request<V>>, key: string, n: nat) returns (i: nat)
    requires n <= |run| && Successes(run, key, n) > 0
    ensures i < n && run[i].key == key && Succeeds(run, i)
  {
    if run[n - 1].key == key && Succeeds(run, n - 1) {
      i := n - 1;
    } else {
      i := SomeSuccess(run, key, n - 1);
    }
  }

  /** At most one success. In a run in which the key is never evicted and every request under it comes
      within ten minutes of every earlier success under it, the service succeeds at most once for the key. */
  lemma {:induction false} CreatedAtMostOnce<V>(run: seq<Request<V>>, key: string, n: nat)
    requires PossibleRun(run) && Trim(key) != "" && n <= |run|
    requires forall m | 0 <= m < |run| :: key !in run[m].evicted
    requires forall i, j | 0 <= i < j < |run| && run[i].key == key && run[j].key == key && Succeeds(run, i) ::
               run[j].readAt <= run[i].writeAt + TTL
    ensures Successes(run, key, n) <= 1
  {
    hide Asks, PossibleRun;
    if n > 0 {
      CreatedAtMostOnce(run, key, n - 1);
      if Successes(run, key, n - 1) > 0 && run[n - 1].key == key {
        var i := SomeSuccess(run, key, n - 1);
        LaterRequestReplays(run, i, n - 1);
      }
    }
  }
}
