/** Forwarding a webhook: targets in order, stopping at the first that fails; for each, attempts with
    retries, timeouts and pauses. Sends, clocks and cancellation are an oracle. */
module Forwarding {
  import opened Text
  import opened Json
  import R = RetryPolicies
  import F = EventFilters

  datatype Target = Target(id: string, filter: F.Filter, policy: R.RetryPolicy)

  datatype Inbound = Inbound(eventId: string, headers: F.Headers, payload: Fields)

  /** A recorded attempt. */
  datatype Attempt = Attempt(eventId: string, targetId: string, number: nat, success: bool)

  /** What happens at one attempt: whether the send succeeds and how long it takes, whether the row can
      be recorded, whether the context is cancelled during the pause that follows, and how long that
      cut-short pause lasts. */
  datatype Send = Send(ok: bool, took: nat, recorded: bool, cancelled: bool, waited: nat)

  /** The sends to one target, by attempt number. */
  type Sends = nat -> Send

  // ---- One target ----

  /** The number of the last attempt made, from attempt k on: the first that succeeds, or is cancelled
      after failing, or reaches the maximum. */
  function LastAttempt(max: nat, sends: Sends, k: nat): (n: nat)
    requires k <= max
    ensures k <= n <= max
    ensures forall j | k <= j < n :: !sends(j).ok && !sends(j).cancelled
    ensures sends(n).ok || n == max || sends(n).cancelled
    decreases max - k
  {
    if sends(k).ok || k == max || sends(k).cancelled then k else LastAttempt(max, sends, k + 1)
  }

  function MaxAttempts(target: Target): nat
    ensures MaxAttempts(target) > 0
  {
    R.WithDefaults(target.policy).maxAttempts
  }

  function AttemptsMade(target: Target, sends: Sends): (n: nat)
    ensures 1 <= n <= MaxAttempts(target)
  {
    LastAttempt(MaxAttempts(target), sends, 1)
  }

  /** The last attempt decides. */
  predicate Delivered(target: Target, sends: Sends) {
    sends(AttemptsMade(target, sends)).ok
  }

  /** The rows of attempts 1 to n: each failed unless its send succeeded; unrecordable ones are missing. */
  function Rows(eventId: string, targetId: string, sends: Sends, n: nat): seq<Attempt> {
    if n == 0 then []
    else
      Rows(eventId, targetId, sends, n - 1) +
      if sends(n).recorded then [Attempt(eventId, targetId, n, sends(n).ok)] else []
  }

  /** Time spent in the first n sends and the full pauses between them. */
  function TimeSpent(backoff: nat, sends: Sends, n: nat): nat {
    if n == 0 then 0
    else TimeSpent(backoff, sends, n - 1) + sends(n).took + if n > 1 then backoff else 0
  }

  /** What one more attempt adds to rows and time. */
  lemma OneMoreAttempt(eventId: string, targetId: string, backoff: nat, sends: Sends, n: nat)
    requires n > 0
    ensures Rows(eventId, targetId, sends, n) ==
            Rows(eventId, targetId, sends, n - 1) +
            if sends(n).recorded then [Attempt(eventId, targetId, n, sends(n).ok)] else []
    ensures TimeSpent(backoff, sends, n) ==
            TimeSpent(backoff, sends, n - 1) + (if n > 1 then backoff else 0) + sends(n).took
  {
  }

  lemma NoAttempts(eventId: string, targetId: string, backoff: nat, sends: Sends)
    ensures Rows(eventId, targetId, sends, 0) == [] && TimeSpent(backoff, sends, 0) == 0
  {
  }

  /** Attempt k, if it is made, is the last exactly when it succeeds, is cancelled, or is the maximum. */
  lemma IsLastAttempt(target: Target, sends: Sends, k: nat)
    requires 1 <= k <= AttemptsMade(target, sends)
    ensures k == AttemptsMade(target, sends) <==> sends(k).ok || sends(k).cancelled || k == MaxAttempts(target)
  {
  }

  class TargetStore {
    var attempts: seq<Attempt>

    constructor ()
      ensures attempts == []
    {
      attempts := [];
    }

    method RecordAttempt(a: Attempt, works: bool)
      modifies this
      ensures attempts == old(attempts) + if works then [a] else []
    {
      if works {
        attempts := attempts + [a];
      }
    }
  }

  class Service {
    const store: TargetStore
    const lib: F.Library

    constructor (store: TargetStore, lib: F.Library)
      ensures this.store == store && this.lib == lib
    {
      this.store, this.lib := store, lib;
    }

    method ForwardToTarget(target: Target, inbound: Inbound, sends: Sends) returns (ok: bool, elapsed: nat)
      modifies store
      ensures ok == Delivered(target, sends)
      ensures store.attempts == old(store.attempts) + TargetRows(target, inbound, sends)
      ensures elapsed == TargetTime(target, sends)
    {
      hide R.WithDefaults, LastAttempt, AttemptsMade, Rows, TimeSpent;
      var policy := R.WithDefaults(target.policy);
      var attemptNo := 1;
      elapsed := 0;
      NoAttempts(inbound.eventId, target.id, policy.backoff, sends);
      while attemptNo <= policy.maxAttempts
        invariant 1 <= attemptNo <= AttemptsMade(target, sends)
        invariant store.attempts == old(store.attempts) + Rows(inbound.eventId, target.id, sends, attemptNo - 1)
        invariant elapsed == TimeSpent(policy.backoff, sends, attemptNo - 1) +
                             if attemptNo > 1 then policy.backoff else 0
        decreases AttemptsMade(target, sends) - attemptNo
      {
        OneMoreAttempt(inbound.eventId, target.id, policy.backoff, sends, attemptNo);
        IsLastAttempt(target, sends, attemptNo);
        var send := sends(attemptNo);
        elapsed := elapsed + send.took;
        store.RecordAttempt(Attempt(inbound.eventId, target.id, attemptNo, send.ok), send.recorded);
        if send.ok {
          return true, elapsed;
        }
        if attemptNo < policy.maxAttempts {
          if send.cancelled {
            elapsed := elapsed + send.waited;
            return false, elapsed;
          }
          elapsed := elapsed + policy.backoff;
        } else {
          return false, elapsed;
        }
        attemptNo := attemptNo + 1;
      }
      ok := false;
    }

    /** `targets` is what the store lists for the provider, None when listing fails; `sends` gives each
        target's sends by its position. */
    method Forward(targets: Option<seq<Target>>, inbound: Inbound, sends: nat -> Sends) returns (ok: bool)
      modifies store
      ensures targets.None? ==> !ok && store.attempts == old(store.attempts)
      ensures targets.Some? ==>
                && ok == AllDelivered(lib, targets.value, inbound, sends, 0)
                && store.attempts == old(store.attempts) + ForwardRows(lib, targets.value, inbound, sends, 0)
    {
      hide F.Accepts, Delivered, TargetRows, AttemptsMade, Rows;
      if targets.None? {
        return false;
      }
      var list := targets.value;
      var i := 0;
      while i < |list|
        invariant 0 <= i <= |list|
        invariant AllDelivered(lib, list, inbound, sends, 0) == AllDelivered(lib, list, inbound, sends, i)
        invariant old(store.attempts) + ForwardRows(lib, list, inbound, sends, 0) ==
                  store.attempts + ForwardRows(lib, list, inbound, sends, i)
      {
        var matches := F.EventFilterMatch(lib, list[i].filter, inbound.headers, inbound.payload);
        assert matches == Matches(lib, list[i], inbound);
        if matches {
          var delivered, _ := ForwardToTarget(list[i], inbound, sends(i));
          if !delivered {
            return false;
          }
        }
        i := i + 1;
      }
      return true;
    }
  }

  /** The time one target takes: sends, full pauses between them, and a pause cut short by cancellation. */
  function TargetTime(target: Target, sends: Sends): nat {
    var n := AttemptsMade(target, sends);
    TimeSpent(R.WithDefaults(target.policy).backoff, sends, n) +
    if !sends(n).ok && n < MaxAttempts(target) then sends(n).waited else 0
  }

  // ---- All targets ----

  predicate Matches(lib: F.Library, target: Target, inbound: Inbound) {
    F.Accepts(lib, target.filter, inbound.headers, inbound.payload)
  }

  /** A target gets a webhook exactly when every entry of its filter whose key and value are not blank finds, in
      the webhook's headers or payload, a value that is not blank and the same ignoring case. */
  lemma MatchesExactly(lib: F.Library, target: Target, inbound: Inbound)
    ensures Matches(lib, target, inbound) <==>
              forall k | k in target.filter && Trim(k) != "" && Trim(target.filter[k]) != "" ::
                var actual := F.Actual(lib, inbound.headers, inbound.payload, Trim(k));
                actual != "" && EqualFold(lib.fold, actual, Trim(target.filter[k]))
  {
    F.AcceptsExactly(lib, target.filter, inbound.headers, inbound.payload);
  }

  /** From target i on, every matching target is delivered to. */
  predicate AllDelivered(lib: F.Library, targets: seq<Target>, inbound: Inbound, sends: nat -> Sends, i: nat)
    requires i <= |targets|
    decreases |targets| - i
  {
    i == |targets| ||
    ((Matches(lib, targets[i], inbound) ==> Delivered(targets[i], sends(i))) &&
     AllDelivered(lib, targets, inbound, sends, i + 1))
  }

  function TargetRows(target: Target, inbound: Inbound, sends: Sends): seq<Attempt> {
    Rows(inbound.eventId, target.id, sends, AttemptsMade(target, sends))
  }

  function ForwardRows(lib: F.Library, targets: seq<Target>, inbound: Inbound, sends: nat -> Sends, i: nat)
    : seq<Attempt>
    requires i <= |targets|
    decreases |targets| - i
  {
    if i == |targets| then []
    else if !Matches(lib, targets[i], inbound) then ForwardRows(lib, targets, inbound, sends, i + 1)
    else if Delivered(targets[i], sends(i)) then
      TargetRows(targets[i], inbound, sends(i)) + ForwardRows(lib, targets, inbound, sends, i + 1)
    else TargetRows(targets[i], inbound, sends(i))
  }

  /** Target i matches and is reached: every matching target before it was delivered to. */
  ghost predicate Reached(lib: F.Library, targets: seq<Target>, inbound: Inbound, sends: nat -> Sends, i: nat) {
    && i < |targets| && Matches(lib, targets[i], inbound)
    && forall j | 0 <= j < i && Matches(lib, targets[j], inbound) :: Delivered(targets[j], sends(j))
  }

  /** The rows of the reached targets up to i, in order. */
  ghost function ReachedRows(lib: F.Library, targets: seq<Target>, inbound: Inbound, sends: nat -> Sends, i: nat)
    : seq<Attempt>
    requires i <= |targets|
  {
    if i == 0 then []
    else
      ReachedRows(lib, targets, inbound, sends, i - 1) +
      if Reached(lib, targets, inbound, sends, i - 1) then TargetRows(targets[i - 1], inbound, sends(i - 1)) else []
  }

  ghost predicate DeliveredBefore(lib: F.Library, targets: seq<Target>, inbound: Inbound, sends: nat -> Sends, i: nat) {
    forall j | 0 <= j < i && j < |targets| && Matches(lib, targets[j], inbound) :: Delivered(targets[j], sends(j))
  }

  /** The fan-out, exactly: the attempts recorded are those of the reached targets in order, so matching
      targets are tried up to and including the first that fails and none after it; and the call reports
      success exactly when every matching target's last attempt succeeded. */
  lemma ForwardTrace(lib: F.Library, targets: seq<Target>, inbound: Inbound, sends: nat -> Sends)
    ensures ForwardRows(lib, targets, inbound, sends, 0) == ReachedRows(lib, targets, inbound, sends, |targets|)
    ensures AllDelivered(lib, targets, inbound, sends, 0) <==> DeliveredBefore(lib, targets, inbound, sends, |targets|)
  {
    hide Matches, Delivered, TargetRows;
    TraceFrom(lib, targets, inbound, sends, 0);
    DeliveredFrom(lib, targets, inbound, sends, 0);
  }

  lemma {:induction false} TraceFrom(lib: F.Library, targets: seq<Target>, inbound: Inbound, sends: nat -> Sends,
                                     i: nat)
    requires i <= |targets| && DeliveredBefore(lib, targets, inbound, sends, i)
    ensures ReachedRows(lib, targets, inbound, sends, i) + ForwardRows(lib, targets, inbound, sends, i) ==
            ReachedRows(lib, targets, inbound, sends, |targets|)
    decreases |targets| - i
  {
    hide Matches, Delivered, TargetRows;
    if i < |targets| {
      var done := ReachedRows(lib, targets, inbound, sends, i);
      if !Matches(lib, targets[i], inbound) {
        TraceFrom(lib, targets, inbound, sends, i + 1);
      } else if Delivered(targets[i], sends(i)) {
        TraceFrom(lib, targets, inbound, sends, i + 1);
        assert done + TargetRows(targets[i], inbound, sends(i)) + ForwardRows(lib, targets, inbound, sends, i + 1) ==
               done + (TargetRows(targets[i], inbound, sends(i)) + ForwardRows(lib, targets, inbound, sends, i + 1));
      } else {
        NothingAfter(lib, targets, inbound, sends, i, |targets|);
      }
    }
  }

  lemma {:induction false} NothingAfter(lib: F.Library, targets: seq<Target>, inbound: Inbound, sends: nat -> Sends,
                                        i: nat, k: nat)
    requires i < k <= |targets| && Matches(lib, targets[i], inbound) && !Delivered(targets[i], sends(i))
    ensures ReachedRows(lib, targets, inbound, sends, k) == ReachedRows(lib, targets, inbound, sends, i + 1)
  {
    hide Matches, Delivered, TargetRows;
    if k > i + 1 {
      NothingAfter(lib, targets, inbound, sends, i, k - 1);
    }
  }

  lemma {:induction false} DeliveredFrom(lib: F.Library, targets: seq<Target>, inbound: Inbound, sends: nat -> Sends,
                                         i: nat)
    requires i <= |targets| && DeliveredBefore(lib, targets, inbound, sends, i)
    ensures AllDelivered(lib, targets, inbound, sends, i) <==> DeliveredBefore(lib, targets, inbound, sends, |targets|)
    decreases |targets| - i
  {
    hide Matches, Delivered;
    if i < |targets| && (Matches(lib, targets[i], inbound) ==> Delivered(targets[i], sends(i))) {
      DeliveredFrom(lib, targets, inbound, sends, i + 1);
    }
  }

  // ---- The attempts of one target ----

  /** Rows of the event and target, in the order of their attempts, whose numbers lie between 1 and n; only
      a row numbered `last` can be a success, and a row is one exactly when its send was. */
  ghost predicate Numbered(rows: seq<Attempt>, eventId: string, targetId: string, sends: Sends, n: nat, last: nat) {
    && (forall i | 0 <= i < |rows| ::
          1 <= rows[i].number <= n && rows[i].eventId == eventId && rows[i].targetId == targetId &&
          rows[i].success == sends(rows[i].number).ok && (rows[i].success ==> rows[i].number == last))
    && (forall i, j | 0 <= i < j < |rows| :: rows[i].number < rows[j].number)
  }

  ghost predicate NumberedFromOne(rows: seq<Attempt>, n: nat) {
    |rows| == n && forall i | 0 <= i < |rows| :: rows[i].number == i + 1
  }

  lemma {:induction false} RowsInOrder(eventId: string, targetId: string, sends: Sends, n: nat, last: nat)
    requires n <= last && forall k | 1 <= k < last :: !sends(k).ok
    ensures Numbered(Rows(eventId, targetId, sends, n), eventId, targetId, sends, n, last)
  {
    if n > 0 {
      RowsInOrder(eventId, targetId, sends, n - 1, last);
    }
  }

  lemma {:induction false} RowsComplete(eventId: string, targetId: string, sends: Sends, n: nat)
    ensures |Rows(eventId, targetId, sends, n)| <= n
    ensures (forall k | 1 <= k <= n :: sends(k).recorded) ==> NumberedFromOne(Rows(eventId, targetId, sends, n), n)
  {
    if n > 0 {
      RowsComplete(eventId, targetId, sends, n - 1);
    }
  }

  /** The recorded attempts of a target carry strictly increasing numbers between 1 and n, belong to the
      event and target, and all but number n failed. Without recording failures they are exactly 1 to n. */
  lemma RowsNumbered(eventId: string, targetId: string, sends: Sends, n: nat, last: nat)
    requires n <= last && forall k | 1 <= k < last :: !sends(k).ok
    ensures var rows := Rows(eventId, targetId, sends, n);
            && |rows| <= n
            && Numbered(rows, eventId, targetId, sends, n, last)
            && ((forall k | 1 <= k <= n :: sends(k).recorded) ==> NumberedFromOne(rows, n))
  {
    hide Rows, Numbered, NumberedFromOne;
    RowsInOrder(eventId, targetId, sends, n, last);
    RowsComplete(eventId, targetId, sends, n);
  }

  /** A target gets between one attempt and the effective maximum; all but the last fail; the last one
      succeeds exactly when the target is delivered to; short of the maximum only success or cancellation
      ends the attempts. */
  lemma TargetAttempts(target: Target, inbound: Inbound, sends: Sends)
    ensures var n := AttemptsMade(target, sends);
            && 1 <= n <= R.WithDefaults(target.policy).maxAttempts
            && (forall k | 1 <= k < n :: !sends(k).ok && !sends(k).cancelled)
            && (Delivered(target, sends) <==> exists k | 1 <= k <= n :: sends(k).ok)
            && (n < R.WithDefaults(target.policy).maxAttempts ==> sends(n).ok || sends(n).cancelled)
            && var rows := TargetRows(target, inbound, sends);
               forall i | 0 <= i < |rows| && rows[i].success :: Delivered(target, sends) && rows[i].number == n
  {
    var n := AttemptsMade(target, sends);
    RowsNumbered(inbound.eventId, target.id, sends, n, n);
  }

  lemma {:induction false} TimeBound(backoff: nat, timeout: nat, sends: Sends, n: nat)
    requires n > 0 && forall k | 1 <= k <= n :: sends(k).took <= timeout
    ensures TimeSpent(backoff, sends, n) <= n * timeout + (n - 1) * backoff
  {
    if n > 1 {
      TimeBound(backoff, timeout, sends, n - 1);
      assert n * timeout == (n - 1) * timeout + timeout && (n - 1) * backoff == (n - 2) * backoff + backoff;
    }
  }

  /** The context is cancelled in the middle of the pause after attempt k, all earlier pauses having run
      to their end. */
  predicate CutAfter(target: Target, sends: Sends, k: nat) {
    && 1 <= k < MaxAttempts(target)
    && !sends(k).ok && sends(k).cancelled && sends(k).waited > 0
    && forall j | 1 <= j < k :: !sends(j).ok && !sends(j).cancelled
  }

  /** Some pause is cut short. */
  predicate PauseCutShort(target: Target, sends: Sends) {
    exists k | 1 <= k < MaxAttempts(target) :: CutAfter(target, sends, k)
  }

  /** A pause is cut short after the last attempt made, or not at all. */
  lemma CutIsLast(target: Target, sends: Sends)
    ensures var n := AttemptsMade(target, sends);
            PauseCutShort(target, sends) <==>
              n < MaxAttempts(target) && !sends(n).ok && sends(n).cancelled && sends(n).waited > 0
  {
    var n := AttemptsMade(target, sends);
    if n < MaxAttempts(target) && !sends(n).ok && sends(n).cancelled && sends(n).waited > 0 {
      assert CutAfter(target, sends, n);
    }
    if PauseCutShort(target, sends) {
      var k :| 1 <= k < MaxAttempts(target) && CutAfter(target, sends, k);
      assert k == n;
    }
  }

  /** When every send respects the timeout, one target takes at most n timeouts and n pauses, and at most
      n timeouts and n-1 pauses when no pause is cut short. */
  lemma TargetTimeBound(target: Target, sends: Sends)
    requires var p := R.WithDefaults(target.policy);
             forall k: nat | 1 <= k <= p.maxAttempts :: sends(k).took <= p.timeout && sends(k).waited <= p.backoff
    ensures var p := R.WithDefaults(target.policy);
            var n := AttemptsMade(target, sends);
            && TargetTime(target, sends) <= n * p.timeout + n * p.backoff
            && (!PauseCutShort(target, sends) ==> TargetTime(target, sends) <= n * p.timeout + (n - 1) * p.backoff)
  {
    hide TimeSpent, PauseCutShort, LastAttempt;
    CutIsLast(target, sends);
    var p := R.WithDefaults(target.policy);
    var n := AttemptsMade(target, sends);
    TimeBound(p.backoff, p.timeout, sends, n);
    assert n * p.backoff == (n - 1) * p.backoff + p.backoff;
  }

  lemma {:induction false} FullTime(backoff: nat, timeout: nat, sends: Sends, n: nat)
    requires n > 0 && forall k | 1 <= k <= n :: sends(k).took == timeout
    ensures TimeSpent(backoff, sends, n) == n * timeout + (n - 1) * backoff
  {
    if n > 1 {
      FullTime(backoff, timeout, sends, n - 1);
      assert n * timeout == (n - 1) * timeout + timeout && (n - 1) * backoff == (n - 2) * backoff + backoff;
    }
  }

  /** The bound is exact: when every send takes the whole timeout, n timeouts and n-1 pauses suffice if
      and only if no pause is cut short. */
  lemma TargetTimeExact(target: Target, sends: Sends)
    requires var p := R.WithDefaults(target.policy);
             forall k: nat | 1 <= k <= p.maxAttempts :: sends(k).took == p.timeout
    ensures var p := R.WithDefaults(target.policy);
            var n := AttemptsMade(target, sends);
            TargetTime(target, sends) <= n * p.timeout + (n - 1) * p.backoff <==> !PauseCutShort(target, sends)
  {
    var p := R.WithDefaults(target.policy);
    FullTime(p.backoff, p.timeout, sends, AttemptsMade(target, sends));
    CutIsLast(target, sends);
  }

  const HASTY := Target("t", map[], R.RetryPolicy(3, 10, 4))

  const CANCELLED: Sends := k => Send(false, 10, true, true, 4)

  /** One attempt of 10, then a cancelled pause of 4: 14 in all, more than one timeout and no pause. */
  lemma CancelledPauseExceeds()
    ensures AttemptsMade(HASTY, CANCELLED) == 1 && TargetTime(HASTY, CANCELLED) == 14
    ensures var p := R.WithDefaults(HASTY.policy); TargetTime(HASTY, CANCELLED) > 1 * p.timeout + 0 * p.backoff
  {
    assert TimeSpent(4, CANCELLED, 0) == 0;
    assert TimeSpent(4, CANCELLED, 1) == 10;
  }
}
