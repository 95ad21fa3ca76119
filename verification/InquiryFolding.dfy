/** What a sequence of provider inquiries leaves as the status of an intent. */
module InquiryFolding {
  import opened Text
  import opened Ledger
  import opened LedgerInvariants
  import opened LedgerRuns
  import P = Payments
  import W = Webhooks

  // ---- Statuses ----

  /** The stored status after each answer in turn. */
  function Fold(current: Status, answers: seq<Status>): Status
    decreases |answers|
  {
    if answers == [] then current else Fold(P.StatusUpdate(current, answers[0]).0, answers[1..])
  }

  function LastWhere(s: seq<Status>, p: Status -> bool): (r: Option<Status>)
    ensures r.Some? ==> p(r.value) && r.value in s
    ensures r.None? ==> forall x <- s :: !p(x)
  {
    if s == [] then None
    else if p(s[|s| - 1]) then Some(s[|s| - 1])
    else LastWhere(s[..|s| - 1], p)
  }

  function GetOr(o: Option<Status>, default: Status): Status {
    if o.Some? then o.value else default
  }

  predicate Informative(s: Status) {
    s != Unset
  }

  /** The last refund status among the initial one and the answers, if there is one; otherwise the last
      answer that says anything; otherwise the initial status. */
  function ClosedForm(initial: Status, answers: seq<Status>): Status {
    match LastWhere([initial] + answers, IsRefundStatus)
    case Some(s) => s
    case None => GetOr(LastWhere(answers, Informative), initial)
  }

  lemma {:induction false} FoldAppend(current: Status, answers: seq<Status>, last: Status)
    ensures Fold(current, answers + [last]) == P.StatusUpdate(Fold(current, answers), last).0
    decreases |answers|
  {
    if answers == [] {
      assert ([] + [last])[1..] == [];
    } else {
      assert (answers + [last])[1..] == answers[1..] + [last];
      FoldAppend(P.StatusUpdate(current, answers[0]).0, answers[1..], last);
    }
  }

  lemma LastWhereAppend(s: seq<Status>, x: Status, p: Status -> bool)
    ensures LastWhere(s + [x], p) == if p(x) then Some(x) else LastWhere(s, p)
  {
    assert (s + [x])[..|s + [x]| - 1] == s;
  }

  /** One more answer moves the closed form as the merge rule says. */
  lemma ClosedFormAppend(initial: Status, answers: seq<Status>, last: Status)
    ensures ClosedForm(initial, answers + [last]) == P.StatusUpdate(ClosedForm(initial, answers), last).0
  {
    assert [initial] + (answers + [last]) == ([initial] + answers) + [last];
    LastWhereAppend([initial] + answers, last, IsRefundStatus);
    LastWhereAppend(answers, last, Informative);
    NoRefundFallback(initial, answers);
  }

  lemma NoRefundFallback(initial: Status, answers: seq<Status>)
    ensures LastWhere([initial] + answers, IsRefundStatus).None? ==>
              !IsRefundStatus(GetOr(LastWhere(answers, Informative), initial))
  {
    var all := [initial] + answers;
    assert all[0] == initial && forall x <- answers :: x in all;
  }

  /** Merging answer by answer gives the closed form. */
  lemma {:induction false} FoldClosedForm(initial: Status, answers: seq<Status>)
    ensures Fold(initial, answers) == ClosedForm(initial, answers)
  {
    if answers == [] {
      LastWhereAppend([], initial, IsRefundStatus);
      assert [initial] + [] == [] + [initial];
    } else {
      hide P.StatusUpdate, ClosedForm;
      var init, last := answers[..|answers| - 1], answers[|answers| - 1];
      assert answers == init + [last];
      FoldClosedForm(initial, init);
      FoldAppend(initial, init, last);
      ClosedFormAppend(initial, init, last);
    }
  }

  /** Repeating an answer changes nothing: an answer equal to the previous one never asks for a write. */
  lemma RepeatedAnswer(current: Status, answer: Status)
    ensures P.StatusUpdate(P.StatusUpdate(current, answer).0, answer) == (P.StatusUpdate(current, answer).0, false)
  {
  }

  // ---- Any run ----

  predicate IsInquiryCall(c: Call) {
    c.StatusCall? || c.ReconcileCall?
  }

  /** The inquiry is about this reference and its answer can be stored: it is accepted, the lookups work,
      the provider answers without error, and the intent write works. */
  predicate Counts(c: Call, ref: string) {
    && IsInquiryCall(c) && P.InquiryAccepted(c.inquiry) && Trim(c.inquiry.reference) == ref
    && LookupIntent !in c.env.faults && (Trim(c.inquiry.providerRef) != "" || LookupAttempt !in c.env.faults)
    && c.env.adapter && !c.env.answer.failed && FinalUpsert !in c.env.faults
  }

  /** The answers that can be stored, in order. */
  function CountedAnswers(calls: seq<Call>, ref: string): seq<Status> {
    if calls == [] then []
    else if Counts(calls[0], ref) then [calls[0].env.answer.status] + CountedAnswers(calls[1..], ref)
    else CountedAnswers(calls[1..], ref)
  }

  /** The call leaves the status of intent k alone. */
  ghost predicate LeavesStatus(w: W.World, c: Call, k: nat) {
    k < |w.db.intents| && k < |Apply(w, c).db.intents| && Apply(w, c).db.intents[k].status == w.db.intents[k].status
  }

  /** Throughout the run no call but an inquiry changes the status of intent k. */
  ghost predicate OnlyInquiriesWrite(w: W.World, calls: seq<Call>, k: nat)
    decreases |calls|
  {
    calls == [] ||
    ((IsInquiryCall(calls[0]) || LeavesStatus(w, calls[0], k)) && OnlyInquiriesWrite(Apply(w, calls[0]), calls[1..], k))
  }

  lemma RecordInquiryWrites(db: Db, k: nat, provider: string, providerRef: string, env: P.Env)
    requires Consistent(db) && k < |db.intents|
    ensures var intent := db.intents[k];
            var after := P.RecordInquiry(db, intent, provider, providerRef, env).0;
            var (next, changed) := P.StatusUpdate(intent.status, env.answer.status);
            if env.answer.failed || !changed || FinalUpsert in env.faults then after.intents == db.intents
            else RowWritten(db.intents, after.intents, intent.externalRef, next)
  {
    hide Grows, RowWritten, TryUpsert, UniqueIntents, UniqueRefunds, IncreasingEvents, IdsUsed, Linked;
    var intent := db.intents[k];
    var next := P.StatusUpdate(intent.status, env.answer.status).0;
    KnownProvider(db, k);
    TryUpsertKeeps(db, Some(intent.id), intent.externalRef, intent.provider, intent.amount, intent.currency, next,
                   intent.metadata, env.now, FinalUpsert in env.faults, FinalReload in env.faults);
    NoWrite(db, intent, next, env.now, FinalReload in env.faults);
  }

  lemma KnownProvider(db: Db, k: nat)
    requires Consistent(db) && k < |db.intents|
    ensures db.intents[k].provider in PROVIDERS && FindRef(db.intents, db.intents[k].externalRef) == Some(k)
  {
    assert db.intents[k] in db.intents;
  }

  lemma NoWrite(db: Db, intent: Intent, status: Status, now: int, reloadFails: bool)
    ensures SetStatus(db, intent, status, now, true, reloadFails).0 == db
  {
  }

  lemma StatusWritten(a: seq<Intent>, b: seq<Intent>, j: nat, status: Status, k: nat)
    requires UniqueIntents(a) && j < |a| && k < |a| && RowWritten(a, b, a[j].externalRef, status)
    ensures k < |b| && b[k].status == if j == k then status else a[k].status
  {
    assert FindRef(a, a[j].externalRef) == Some(j);
  }

  lemma ReferenceStays(a: Db, b: Db, ref: string, k: nat)
    requires Consistent(b) && Grows(a, b) && FindRef(a.intents, ref) == Some(k)
    ensures FindRef(b.intents, ref) == Some(k)
  {
    assert b.intents[k].externalRef == ref;
  }

  /** One inquiry, whatever it is about and whatever fails: intent k takes the merged status exactly when
      the answer counts. */
  lemma InquiryStatus(w: W.World, c: Call, ref: string, k: nat)
    requires Consistent(w.db) && FindRef(w.db.intents, ref) == Some(k) && IsInquiryCall(c)
    ensures var after := Apply(w, c).db.intents;
            k < |after| && after[k].status ==
              if Counts(c, ref) then P.StatusUpdate(w.db.intents[k].status, c.env.answer.status).0
              else w.db.intents[k].status
  {
    hide Trim, Consistent, RowWritten, P.RecordInquiry, P.StatusUpdate;
    var db, input, env := w.db, c.inquiry, c.env;
    var found := FindRef(db.intents, Trim(input.reference));
    if found.Some? {
      var j := found.value;
      var intent := db.intents[j];
      var providerRef := P.ProviderReference(db, input.providerRef, input.reference, Some(intent.id), input.provider,
                                             env.prefer, LookupAttempt in env.faults);
      if providerRef.Ok? {
        RecordInquiryWrites(db, j, input.provider, providerRef.value, env);
        var after := P.RecordInquiry(db, intent, input.provider, providerRef.value, env).0;
        InquiryEffect(db, after, j, k, env);
        KnownProvider(db, k);
        KnownProvider(db, j);
      }
    }
  }

  lemma InquiryEffect(db: Db, after: Db, j: nat, k: nat, env: P.Env)
    requires Consistent(db) && j < |db.intents| && k < |db.intents|
    requires var intent := db.intents[j];
             var (next, changed) := P.StatusUpdate(intent.status, env.answer.status);
             if env.answer.failed || !changed || FinalUpsert in env.faults then after.intents == db.intents
             else RowWritten(db.intents, after.intents, intent.externalRef, next)
    ensures k < |after.intents| && after.intents[k].status ==
              if j == k && !env.answer.failed && FinalUpsert !in env.faults
              then P.StatusUpdate(db.intents[k].status, env.answer.status).0 else db.intents[k].status
  {
    hide RowWritten;
    if !env.answer.failed && P.StatusUpdate(db.intents[j].status, env.answer.status).1 && FinalUpsert !in env.faults {
      StatusWritten(db.intents, after.intents, j, P.StatusUpdate(db.intents[j].status, env.answer.status).0, k);
    }
  }

  /** In any run of any calls, whatever fails, in which only inquiries change the status of an intent, that
      status ends as the closed form of the answers that count, whichever of Status and Reconcile asked. */
  lemma {:induction false} InquiryRun(w: W.World, calls: seq<Call>, ref: string, k: nat)
    requires Consistent(w.db) && FindRef(w.db.intents, ref) == Some(k) && OnlyInquiriesWrite(w, calls, k)
    ensures FindRef(Run(w, calls).db.intents, ref) == Some(k)
    ensures Run(w, calls).db.intents[k].status == ClosedForm(w.db.intents[k].status, CountedAnswers(calls, ref))
    decreases |calls|
  {
    hide Consistent, Grows, Apply, Counts, P.StatusUpdate, IsInquiryCall;
    FoldClosedForm(w.db.intents[k].status, CountedAnswers(calls, ref));
    if calls != [] {
      var next := Apply(w, calls[0]);
      ApplyKeeps(w, calls[0]);
      ReferenceStays(w.db, next.db, ref, k);
      if IsInquiryCall(calls[0]) {
        InquiryStatus(w, calls[0], ref, k);
      } else {
        OthersDoNotCount(calls[0], ref);
      }
      InquiryRun(next, calls[1..], ref, k);
      FoldClosedForm(next.db.intents[k].status, CountedAnswers(calls[1..], ref));
    }
  }

  lemma OthersDoNotCount(c: Call, ref: string)
    requires !IsInquiryCall(c)
    ensures !Counts(c, ref)
  {
  }

  // ---- Undisturbed runs ----

  /** An inquiry about a reference that reaches the provider while the store works. */
  predicate Inquiry(c: Call, ref: string) {
    (c.StatusCall? || c.ReconcileCall?) && P.InquiryAccepted(c.inquiry) && Trim(c.inquiry.reference) == ref &&
    c.env.adapter && c.env.faults == {}
  }

  /** The answers the provider gave without error. */
  function Answers(calls: seq<Call>): seq<Status> {
    if calls == [] then []
    else
      var rest := Answers(calls[1..]);
      var c := calls[0];
      if (c.StatusCall? || c.ReconcileCall?) && !c.env.answer.failed then [c.env.answer.status] + rest else rest
  }

  /** The statuses the provider's responses carried, with or without an error. */
  function Responses(calls: seq<Call>): seq<Status> {
    if calls == [] then []
    else if calls[0].StatusCall? || calls[0].ReconcileCall? then [calls[0].env.answer.status] + Responses(calls[1..])
    else Responses(calls[1..])
  }

  /** Only row k's status and update time differ, and one check row was appended for it. */
  ghost predicate InquiryStep(db: Db, after: Db, k: nat, status: Status, response: Status) {
    && k < |db.intents|
    && |after.intents| == |db.intents|
    && (forall i | 0 <= i < |db.intents| && i != k :: after.intents[i] == db.intents[i])
    && after.intents[k].(updatedAt := db.intents[k].updatedAt) == db.intents[k].(status := status)
    && |after.checks| == |db.checks| + 1 && after.checks[..|db.checks|] == db.checks
    && after.checks[|db.checks|].intentId == db.intents[k].id && after.checks[|db.checks|].status == response
    && after.refunds == db.refunds && after.attempts == db.attempts && after.events == db.events
  }

  lemma OneInquiry(db: Db, k: nat, provider: string, providerRef: string, env: P.Env)
    requires Consistent(db) && k < |db.intents| && env.faults == {} && provider in PROVIDERS
    ensures var intent := db.intents[k];
            var status := if env.answer.failed then intent.status
                          else P.StatusUpdate(intent.status, env.answer.status).0;
            InquiryStep(db, P.RecordInquiry(db, intent, provider, providerRef, env).0, k, status, env.answer.status)
  {
    hide Grows, UniqueRefunds, IncreasingEvents, Linked;
    var intent := db.intents[k];
    assert intent in db.intents;
    var (next, changed) := P.StatusUpdate(intent.status, env.answer.status);
    var d1 := SetStatus(db, intent, next, env.now, false, false).0;
    assert FindRef(db.intents, intent.externalRef) == Some(k);
    assert d1.intents == db.intents[k := intent.(status := next, updatedAt := env.now)];
    assert d1.intents[k].id == intent.id;
  }

  lemma InquiryCall(w: W.World, c: Call, ref: string, k: nat)
    requires Consistent(w.db) && Inquiry(c, ref) && FindRef(w.db.intents, ref) == Some(k)
    ensures var current := w.db.intents[k].status;
            var status := if c.env.answer.failed then current else P.StatusUpdate(current, c.env.answer.status).0;
            InquiryStep(w.db, Apply(w, c).db, k, status, c.env.answer.status)
  {
    hide Consistent, InquiryStep, P.RecordInquiry;
    var intent := w.db.intents[k];
    var providerRef := P.ProviderReference(w.db, c.inquiry.providerRef, c.inquiry.reference, Some(intent.id),
                                           c.inquiry.provider, c.env.prefer, false);
    OneInquiry(w.db, k, c.inquiry.provider, providerRef.value, c.env);
  }

  lemma StepKeepsReference(db: Db, after: Db, k: nat, ref: string, status: Status, response: Status)
    requires Consistent(db) && Consistent(after) && FindRef(db.intents, ref) == Some(k)
    requires InquiryStep(db, after, k, status, response)
    ensures FindRef(after.intents, ref) == Some(k)
  {
    assert after.intents[k].externalRef == ref;
  }

  /** Check rows of one intent carrying these statuses, in order. */
  ghost predicate CheckRows(rows: seq<Check>, intentId: Id, responses: seq<Status>) {
    |rows| == |responses| &&
    forall i | 0 <= i < |rows| :: rows[i].intentId == intentId && rows[i].status == responses[i]
  }

  /** Only row k's status and update time differ, and check rows with these statuses were appended. */
  ghost predicate InquiryTrace(db: Db, after: Db, k: nat, status: Status, responses: seq<Status>) {
    && k < |db.intents|
    && |after.intents| == |db.intents|
    && (forall i | 0 <= i < |db.intents| && i != k :: after.intents[i] == db.intents[i])
    && after.intents[k].(updatedAt := db.intents[k].updatedAt) == db.intents[k].(status := status)
    && db.checks <= after.checks && CheckRows(after.checks[|db.checks|..], db.intents[k].id, responses)
    && after.refunds == db.refunds && after.attempts == db.attempts && after.events == db.events
  }

  lemma TraceStep(db: Db, mid: Db, after: Db, k: nat, s1: Status, response: Status, s2: Status, rest: seq<Status>)
    requires InquiryStep(db, mid, k, s1, response) && InquiryTrace(mid, after, k, s2, rest)
    ensures InquiryTrace(db, after, k, s2, [response] + rest)
  {
    var n := |db.checks|;
    assert db.checks == mid.checks[..n] && mid.checks[..n] == after.checks[..n];
    assert after.checks[n..] == [mid.checks[n]] + after.checks[n + 1..];
    assert mid.intents[k].id == db.intents[k].id by {
      assert mid.intents[k].(updatedAt := db.intents[k].updatedAt).id == mid.intents[k].id;
    }
    TwoWrites(db.intents[k], mid.intents[k], after.intents[k], s1, s2);
  }

  lemma TwoWrites(a: Intent, b: Intent, c: Intent, s1: Status, s2: Status)
    requires b.(updatedAt := a.updatedAt) == a.(status := s1)
    requires c.(updatedAt := b.updatedAt) == b.(status := s2)
    ensures c.(updatedAt := a.updatedAt) == a.(status := s2)
  {
    assert b.(updatedAt := a.updatedAt).id == b.id;
    assert c.id == c.(updatedAt := b.updatedAt).id;
  }

  /** After any run of Status and Reconcile calls on one known reference the stored status is the closed
      form of the successful answers, whichever of the two calls asked; one check row was appended for
      each call, in order, carrying the status the provider reported; nothing else changed. */
  lemma {:induction false} UndisturbedRun(w: W.World, calls: seq<Call>, ref: string, k: nat)
    requires Consistent(w.db) && FindRef(w.db.intents, ref) == Some(k)
    requires forall c <- calls :: Inquiry(c, ref)
    ensures InquiryTrace(w.db, Run(w, calls).db, k, ClosedForm(w.db.intents[k].status, Answers(calls)),
                         Responses(calls))
    decreases |calls|
  {
    hide Consistent, InquiryStep, InquiryTrace, Apply, Inquiry;
    FoldClosedForm(w.db.intents[k].status, Answers(calls));
    if calls == [] {
      EmptyTrace(w.db, k);
    } else {
      var c, next := calls[0], Apply(w, calls[0]);
      IsInquiry(c, ref);
      InquiryCall(w, c, ref, k);
      ApplyKeeps(w, c);
      var current := w.db.intents[k].status;
      var status := if c.env.answer.failed then current else P.StatusUpdate(current, c.env.answer.status).0;
      StepKeepsReference(w.db, next.db, k, ref, status, c.env.answer.status);
      StepStatus(w.db, next.db, k, status, c.env.answer.status);
      UndisturbedRun(next, calls[1..], ref, k);
      FoldClosedForm(status, Answers(calls[1..]));
      TraceStep(w.db, next.db, Run(w, calls).db, k, status, c.env.answer.status,
                ClosedForm(status, Answers(calls[1..])), Responses(calls[1..]));
    }
  }

  lemma IsInquiry(c: Call, ref: string)
    requires Inquiry(c, ref)
    ensures c.StatusCall? || c.ReconcileCall?
  {
  }

  lemma EmptyTrace(db: Db, k: nat)
    requires k < |db.intents|
    ensures InquiryTrace(db, db, k, db.intents[k].status, [])
  {
  }

  lemma StepStatus(db: Db, after: Db, k: nat, status: Status, response: Status)
    requires InquiryStep(db, after, k, status, response)
    ensures k < |after.intents| && after.intents[k].status == status
  {
  }
}
