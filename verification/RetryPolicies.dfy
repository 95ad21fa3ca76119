/** Retry policies of forwarding targets: defaults at save time, defaults at send time, and the stored
    form in whole seconds between them. Durations are 64-bit nanosecond counts. */
module RetryPolicies {
  const SECOND: int := 1_000_000_000
  const MAX64: int := 0x7FFF_FFFF_FFFF_FFFF
  const MIN64: int := -0x8000_0000_0000_0000

  datatype RetryPolicy = RetryPolicy(maxAttempts: int, timeout: int, backoff: int)

  const DEFAULT := RetryPolicy(3, 10 * SECOND, 2 * SECOND)

  /** What a send uses: anything not positive is replaced. */
  function WithDefaults(p: RetryPolicy): (r: RetryPolicy)
    ensures r.maxAttempts > 0 && r.timeout > 0 && r.backoff > 0
    ensures p.maxAttempts > 0 ==> r.maxAttempts == p.maxAttempts
    ensures p.timeout > 0 ==> r.timeout == p.timeout
    ensures p.backoff > 0 ==> r.backoff == p.backoff
    ensures p.maxAttempts <= 0 ==> r.maxAttempts == 3
    ensures p.timeout <= 0 ==> r.timeout == 10 * SECOND
    ensures p.backoff <= 0 ==> r.backoff == 2 * SECOND
  {
    RetryPolicy(
      if p.maxAttempts <= 0 then DEFAULT.maxAttempts else p.maxAttempts,
      if p.timeout <= 0 then DEFAULT.timeout else p.timeout,
      if p.backoff <= 0 then DEFAULT.backoff else p.backoff)
  }

  /** What Add and Update store: unlike at send time, a zero backoff is kept. */
  function ApplyRetryDefaults(p: RetryPolicy): RetryPolicy {
    RetryPolicy(
      if p.maxAttempts <= 0 then DEFAULT.maxAttempts else p.maxAttempts,
      if p.timeout <= 0 then DEFAULT.timeout else p.timeout,
      if p.backoff < 0 then DEFAULT.backoff else p.backoff)
  }

  predicate ValidInput(p: RetryPolicy) {
    p.maxAttempts >= 0 && p.timeout >= 0 && p.backoff >= 0
  }

  predicate Valid(p: RetryPolicy) {
    p.maxAttempts > 0 && p.timeout > 0 && p.backoff >= 0
  }

  // ---- The stored form ----

  datatype Stored = Stored(maxAttempts: int, timeoutSec: int, backoffSec: int)

  /** Go's integer division truncates toward zero. */
  function TruncDiv(a: int, b: int): int
    requires b > 0
  {
    if a >= 0 then a / b else -((-a) / b)
  }

  /** A 64-bit product, wrapped around. */
  function Wrap64(x: int): int {
    (x - MIN64) % 0x1_0000_0000_0000_0000 + MIN64
  }

  predicate In64(x: int) {
    MIN64 <= x <= MAX64
  }

  function Save(p: RetryPolicy): Stored {
    Stored(p.maxAttempts, TruncDiv(p.timeout, SECOND), TruncDiv(p.backoff, SECOND))
  }

  function Load(s: Stored): RetryPolicy {
    RetryPolicy(s.maxAttempts, Wrap64(s.timeoutSec * SECOND), Wrap64(s.backoffSec * SECOND))
  }

  /** A policy saved and loaded again. */
  function Reloaded(p: RetryPolicy): RetryPolicy {
    Load(Save(p))
  }

  predicate Representable(p: RetryPolicy) {
    In64(p.timeout) && In64(p.backoff)
  }

  /** The whole-second part of a duration, toward zero. */
  function WholeSeconds(d: int): int {
    if d >= 0 then d - d % SECOND else -((-d) - (-d) % SECOND)
  }

  lemma TruncateNoOverflow(d: int)
    requires In64(d)
    ensures Wrap64(TruncDiv(d, SECOND) * SECOND) == WholeSeconds(d)
    ensures In64(WholeSeconds(d))
  {
    var a := if d >= 0 then d else -d;
    assert a / SECOND * SECOND == a - a % SECOND;
    assert 0 <= a - a % SECOND <= a;
    WrapInside(WholeSeconds(d));
  }

  lemma WrapInside(x: int)
    requires In64(x)
    ensures Wrap64(x) == x
  {
  }

  /** The save/load trip cuts both durations to whole seconds, toward zero, without overflow; a second
      trip changes nothing. */
  lemma ReloadTruncates(p: RetryPolicy)
    requires Representable(p)
    ensures Reloaded(p) == RetryPolicy(p.maxAttempts, WholeSeconds(p.timeout), WholeSeconds(p.backoff))
    ensures Representable(Reloaded(p)) && Reloaded(Reloaded(p)) == Reloaded(p)
  {
    TruncateNoOverflow(p.timeout);
    TruncateNoOverflow(p.backoff);
    TruncateNoOverflow(WholeSeconds(p.timeout));
    TruncateNoOverflow(WholeSeconds(p.backoff));
    WholeTwice(p.timeout);
    WholeTwice(p.backoff);
  }

  lemma WholeTwice(d: int)
    ensures WholeSeconds(WholeSeconds(d)) == WholeSeconds(d)
  {
    var a := if d >= 0 then d else -d;
    assert (a - a % SECOND) % SECOND == 0;
  }

  /** Storing leaves the duration a send will use as it was. */
  predicate SurvivesStorage(d: int) {
    d <= 0 || d % SECOND == 0
  }

  /** Storage keeps the policy a send uses exactly when each duration is a whole number of seconds (or
      is defaulted anyway). A positive timeout below one second is the worst case: it is stored as zero
      and a send then uses the ten-second default. */
  lemma EffectiveAfterStorage(p: RetryPolicy)
    requires Representable(p)
    ensures WithDefaults(Reloaded(p)) == WithDefaults(p) <==> SurvivesStorage(p.timeout) && SurvivesStorage(p.backoff)
    ensures 0 < p.timeout < SECOND ==> WithDefaults(Reloaded(p)).timeout == DEFAULT.timeout
  {
    ReloadTruncates(p);
    EffectiveDuration(p.timeout, DEFAULT.timeout);
    EffectiveDuration(p.backoff, DEFAULT.backoff);
  }

  lemma EffectiveDuration(d: int, default: int)
    requires default >= SECOND
    ensures var w := WholeSeconds(d);
            (if w <= 0 then default else w) == (if d <= 0 then default else d) <==> SurvivesStorage(d)
  {
  }

  /** What an Update that leaves the policy unset stores, for a target whose stored policy loads as `p`. */
  function AfterUnsetUpdate(p: RetryPolicy): RetryPolicy {
    Reloaded(ApplyRetryDefaults(p))
  }

  /** An Update that leaves the policy unset never changes what a send uses, whatever is stored: defaults
      are filled in early, but only ones a send would fill in anyway. Repeating it changes nothing more. */
  lemma UnsetUpdateKeepsPolicy(p: RetryPolicy)
    requires Representable(p) && Reloaded(p) == p
    ensures Valid(ApplyRetryDefaults(p))
    ensures WithDefaults(AfterUnsetUpdate(p)) == WithDefaults(p)
    ensures AfterUnsetUpdate(AfterUnsetUpdate(p)) == AfterUnsetUpdate(p)
  {
    var q := ApplyRetryDefaults(p);
    ReloadTruncates(p);
    ReloadTruncates(q);
    EffectiveAfterStorage(q);
    assert WithDefaults(q) == WithDefaults(p);
    assert ApplyRetryDefaults(Reloaded(q)) == Reloaded(q);
  }

  /** A zero backoff is accepted and stored, but no send ever uses it. */
  lemma ZeroBackoffUnused(p: RetryPolicy)
    requires Representable(p) && ValidInput(p) && p.backoff == 0
    ensures Reloaded(ApplyRetryDefaults(p)).backoff == 0
    ensures WithDefaults(Reloaded(ApplyRetryDefaults(p))).backoff == DEFAULT.backoff
  {
    ReloadTruncates(ApplyRetryDefaults(p));
  }

  /** From what was asked for to what is sent, exactly: a valid policy, stored and reloaded, is used as given
      if and only if all its fields are positive and both durations are whole seconds. */
  lemma UsedAsGiven(p: RetryPolicy)
    requires Representable(p) && Valid(p)
    ensures WithDefaults(Reloaded(ApplyRetryDefaults(p))) == p <==>
              p.maxAttempts > 0 && p.timeout > 0 && p.backoff > 0 && p.timeout % SECOND == 0 && p.backoff % SECOND == 0
  {
    hide WithDefaults, Reloaded;
    var q := ApplyRetryDefaults(p);
    ReloadTruncates(q);
    EffectiveAfterStorage(q);
  }
}
