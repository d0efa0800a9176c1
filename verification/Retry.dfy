/** The retry policy: a bounded attempt loop with exponential backoff ceilings. */
module Retry {
  import opened Arithmetic
  import opened Results

  /** An error, seen through the classifications the gateway asks of it. */
  datatype Failure = Failure(isOpen: bool, isRetryable: bool, isCircuitFailure: bool, code: string)

  // -------------------------------------------------------------- backoff

  ghost function Doubled(base: int, attempt: nat): int
    requires 1 <= attempt
  {
    base * Pow2(attempt - 1)
  }

  ghost function Min(a: int, b: int): int {
    if a <= b then a else b
  }

  /**
   The backoff ceiling in closed form.  It is the capped exponential, except that an
   exponential landing exactly one below the cap is rounded up to it, because the
   overflow guard halves the cap with integer division.
   */
  ghost function Ceiling(base: int, cap: int, attempt: nat): int
    requires 1 <= attempt
  {
    if 2 <= attempt && Doubled(base, attempt) == cap - 1 then cap
    else Min(cap, Doubled(base, attempt))
  }

  lemma {:induction false} DoubledStep(base: int, attempt: nat)
    requires 1 <= attempt
    ensures Doubled(base, attempt + 1) == 2 * Doubled(base, attempt)
  {
    assert base * (2 * Pow2(attempt - 1)) == 2 * (base * Pow2(attempt - 1));
  }

  lemma {:induction false} DoubledGrows(base: int, low: nat, high: nat)
    requires 0 < base && 1 <= low <= high
    ensures 0 < Doubled(base, low) <= Doubled(base, high)
    ensures low < high ==> 2 * Doubled(base, low) <= Doubled(base, high)
    ensures low + 1 < high ==> 4 * Doubled(base, low) <= Doubled(base, high)
    decreases high - low
  {
    if low < high {
      DoubledGrows(base, low, high - 1);
      DoubledStep(base, high - 1);
    } else {
      assert 0 < base * Pow2(low - 1);
    }
  }

  lemma {:induction false} CapReached(base: int, cap: int, step: nat, attempt: nat)
    requires 0 < base <= cap && 1 <= step < attempt && cap / 2 <= Doubled(base, step)
    ensures Ceiling(base, cap, attempt) == cap
  {
    DoubledGrows(base, step, attempt);
    assert cap - 1 <= 2 * (cap / 2);
  }

  /**
   Doubles from the base until the cap is in reach.  Every intermediate value stays within
   the cap, so a cap that fits the duration type cannot overflow it.
   */
  method Backoff(base: int, cap: int, failedAttempt: nat) returns (delay: int)
    requires 0 < base <= cap && 1 <= failedAttempt
    ensures delay == Ceiling(base, cap, failedAttempt)
    ensures base <= delay <= cap
  {
    delay := base;
    var step := 1;
    while step < failedAttempt
      invariant 1 <= step <= failedAttempt
      invariant delay == Doubled(base, step)
      invariant base <= delay <= cap
      invariant 2 <= step ==> delay <= cap - 2
    {
      if delay >= cap / 2 {
        CapReached(base, cap, step, failedAttempt);
        return cap;
      }
      DoubledStep(base, step);
      delay := delay * 2;
      step := step + 1;
    }
    if delay > cap {
      return cap;
    }
  }

  /** The ceilings never shrink from one attempt to a later one. */
  lemma {:induction false} CeilingMonotone(base: int, cap: int, low: nat, high: nat)
    requires 0 < base <= cap && 1 <= low <= high
    ensures Ceiling(base, cap, low) <= Ceiling(base, cap, high) <= cap
  {
    DoubledGrows(base, low, high);
  }

  /** The ceiling is the capped exponential for exactly the settings that miss the rounding case. */
  lemma {:induction false} CeilingIsCappedExponential(base: int, cap: int, attempt: nat)
    requires 0 < base <= cap && 1 <= attempt
    ensures Ceiling(base, cap, attempt) == Min(cap, Doubled(base, attempt))
       <==> !(2 <= attempt && Doubled(base, attempt) == cap - 1)
    ensures cap % 2 == 0 ==> Ceiling(base, cap, attempt) == Min(cap, Doubled(base, attempt))
    ensures 0 <= Ceiling(base, cap, attempt) - Min(cap, Doubled(base, attempt)) <= 1
  {
    if 2 <= attempt {
      DoubledStep(base, attempt - 1);
    }
  }

  /** For instance: base 1 and cap 3 give 3 for the second attempt, where the capped exponential is 2. */
  lemma {:induction false} CeilingCanBeRoundedUp()
    ensures Ceiling(1, 3, 2) == 3 && Min(3, Doubled(1, 2)) == 2
  {
    assert Pow2(1) == 2 * Pow2(0);
  }

  // ------------------------------------------------------------ attempts

  datatype Options = Options(maxAttempts: nat, baseBackoff: int, maxBackoff: int)

  ghost predicate OptionsOk(options: Options) {
    1 <= options.maxAttempts && 0 < options.baseBackoff <= options.maxBackoff
  }

  /**
   What the world does around one attempt: the parent context's error before it, the
   operation's error (none for success), the parent context's error after it, the jitter
   drawn for the wait that may follow, and the context's error if it ends that wait.
   */
  datatype Surroundings = Surroundings(
    before: Option<Failure>,
    outcome: Option<Failure>,
    after: Option<Failure>,
    jitter: int -> int,
    waiting: Option<Failure>)

  /**
   What a call of the policy did: the error it returned, each attempt's error, how often each
   attempt's context was cancelled, whether the last one was handed to the caller alive, and the
   ceilings it drew its waits from.
   */
  datatype Trace = Trace(
    result: Option<Failure>,
    attempts: seq<Option<Failure>>,
    cancelled: seq<nat>,
    retained: bool,
    ceilings: seq<int>)

  ghost predicate ContextNeverFails(world: seq<Surroundings>) {
    forall k :: 0 <= k < |world| ==> world[k].before.None? && world[k].after.None? && world[k].waiting.None?
  }

  ghost predicate ContextError(world: seq<Surroundings>, e: Failure) {
    exists k :: 0 <= k < |world|
      && (world[k].before == Some(e) || world[k].after == Some(e) || world[k].waiting == Some(e))
  }

  predicate Retries(shouldRetry: Option<Failure -> bool>, e: Failure) {
    shouldRetry.Some? && shouldRetry.value(e)
  }

  /** Only the last attempt may have ended in anything but a retryable failure. */
  ghost predicate OnlyRetryableBeforeLast(attempts: seq<Option<Failure>>, shouldRetry: Option<Failure -> bool>) {
    forall k :: 0 <= k < |attempts| - 1 ==> attempts[k].Some? && Retries(shouldRetry, attempts[k].value)
  }

  predicate LastSucceeded(attempts: seq<Option<Failure>>) {
    attempts != [] && attempts[|attempts| - 1].None?
  }

  /** Each attempt's context was cancelled once; a retained one not at all. */
  ghost predicate CancelledOnce(t: Trace) {
    && |t.cancelled| == |t.attempts|
    && forall k :: 0 <= k < |t.cancelled| ==>
         t.cancelled[k] == if t.retained && k == |t.cancelled| - 1 then 0 else 1
  }

  /** Everything a caller may rely on about one call of the policy. */
  ghost predicate Sound(options: Options, shouldRetry: Option<Failure -> bool>, retain: bool, t: Trace) {
    && |t.attempts| <= options.maxAttempts
    && OnlyRetryableBeforeLast(t.attempts, shouldRetry)
    && (t.result.None? <==> LastSucceeded(t.attempts))
    && (t.retained <==> retain && t.result.None?)
    && CancelledOnce(t)
  }

  /** The error comes from the parent context or is the last attempt's own. */
  ghost predicate Explained(world: seq<Surroundings>, t: Trace) {
    t.result.Some? ==>
      || ContextError(world, t.result.value)
      || (t.attempts != [] && t.result == t.attempts[|t.attempts| - 1])
  }

  /** A failing call gave up only because attempts ran out or the failure was final. */
  ghost predicate Persistent(options: Options, shouldRetry: Option<Failure -> bool>, t: Trace) {
    t.result.Some? ==>
      && t.attempts != []
      && t.attempts[|t.attempts| - 1] == t.result
      && (|t.attempts| == options.maxAttempts || !Retries(shouldRetry, t.result.value))
  }

  /** After attempt `k` (counted from zero) the policy tries again. */
  ghost predicate GoesOn(options: Options, shouldRetry: Option<Failure -> bool>, world: seq<Surroundings>, k: nat)
    requires k < |world|
  {
    var here := world[k];
    && here.before.None? && here.outcome.Some? && here.after.None?
    && k + 1 < options.maxAttempts && Retries(shouldRetry, here.outcome.value)
    && (here.waiting.None? || here.jitter(Ceiling(options.baseBackoff, options.maxBackoff, k + 1)) <= 0)
  }

  /** Attempt `m` is the last, or would have been: what then comes back. */
  ghost predicate StopsAt(
      options: Options, shouldRetry: Option<Failure -> bool>, world: seq<Surroundings>, t: Trace, m: nat)
  {
    && m < |world| && !GoesOn(options, shouldRetry, world, m)
    && (forall k: nat :: k < m ==> GoesOn(options, shouldRetry, world, k))
    && |t.attempts| == (if world[m].before.Some? then m else m + 1)
    && (world[m].before.Some? ==> t.result == world[m].before)
    && (world[m].before.None? && world[m].outcome.None? ==> t.result == None)
    && (world[m].before.None? && world[m].outcome.Some? && world[m].after.Some? ==> t.result == world[m].after)
    && (world[m].before.None? && world[m].outcome.Some? && world[m].after.None? ==>
          if m + 1 == options.maxAttempts || !Retries(shouldRetry, world[m].outcome.value)
          then t.result == world[m].outcome else t.result == world[m].waiting)
  }

  /** The k-th wait was drawn below the ceiling of the k-th failed attempt. */
  ghost predicate WaitsAsPlanned(options: Options, t: Trace) {
    && |t.attempts| - 1 <= |t.ceilings| <= |t.attempts|
    && forall k :: 0 <= k < |t.ceilings| ==>
         t.ceilings[k] == Ceiling(options.baseBackoff, options.maxBackoff, k + 1)
  }

  /** The attempts are the world's first ones, each context is cancelled as it should be, and waits are as planned. */
  ghost predicate Faithful(options: Options, world: seq<Surroundings>, retain: bool, t: Trace) {
    && |t.attempts| <= |world|
    && (forall k :: 0 <= k < |t.attempts| ==> t.attempts[k] == world[k].outcome)
    && (t.retained <==> retain && t.result.None?)
    && CancelledOnce(t) && WaitsAsPlanned(options, t)
  }

  /** The attempt loop: where it stops and with what. */
  method Loop(options: Options, shouldRetry: Option<Failure -> bool>, world: seq<Surroundings>, retain: bool)
    returns (t: Trace, ghost m: nat)
    requires OptionsOk(options) && |world| == options.maxAttempts
    ensures StopsAt(options, shouldRetry, world, t, m) && Faithful(options, world, retain, t)
  {
    m := 0;
    var attempts: seq<Option<Failure>> := [];
    var cancelled: seq<nat> := [];
    var ceilings: seq<int> := [];
    for attempt := 1 to options.maxAttempts + 1
      invariant |attempts| == |cancelled| == |ceilings| == attempt - 1 < options.maxAttempts
      invariant forall k: nat :: k < attempt - 1 ==> GoesOn(options, shouldRetry, world, k)
      invariant forall k :: 0 <= k < |attempts| ==> attempts[k] == world[k].outcome
      invariant forall k :: 0 <= k < |cancelled| ==> cancelled[k] == 1
      invariant forall k :: 0 <= k < |ceilings| ==>
          ceilings[k] == Ceiling(options.baseBackoff, options.maxBackoff, k + 1)
    {
      m := attempt - 1;
      var here := world[attempt - 1];
      if here.before.Some? {
        t := Trace(here.before, attempts, cancelled, false, ceilings);
        return;
      }
      attempts := attempts + [here.outcome];
      if here.outcome.None? {
        t := Trace(None, attempts, cancelled + [if retain then 0 else 1], retain, ceilings);
        return;
      }
      cancelled := cancelled + [1];
      if here.after.Some? {
        t := Trace(here.after, attempts, cancelled, false, ceilings);
        return;
      }
      if attempt == options.maxAttempts || !Retries(shouldRetry, here.outcome.value) {
        t := Trace(here.outcome, attempts, cancelled, false, ceilings);
        return;
      }
      var ceiling := Backoff(options.baseBackoff, options.maxBackoff, attempt);
      ceilings := ceilings + [ceiling];
      var delay := here.jitter(ceiling);
      if delay <= 0 {
        continue;
      }
      if here.waiting.Some? {
        t := Trace(here.waiting, attempts, cancelled, false, ceilings);
        return;
      }
    }
    // Unreachable: the last permitted attempt always returns.
    assert false;
    t := Trace(None, attempts, cancelled, false, ceilings);
  }

  /** Where the loop stops settles everything a caller may rely on. */
  lemma {:induction false} StoppingIsSound(
      options: Options, shouldRetry: Option<Failure -> bool>, world: seq<Surroundings>, retain: bool, t: Trace, m: nat)
    requires OptionsOk(options) && |world| == options.maxAttempts
    requires StopsAt(options, shouldRetry, world, t, m) && Faithful(options, world, retain, t)
    ensures Sound(options, shouldRetry, retain, t)
    ensures Explained(world, t)
    ensures ContextNeverFails(world) ==> Persistent(options, shouldRetry, t)
  {
    forall k | 0 <= k < |t.attempts| - 1
      ensures t.attempts[k].Some? && Retries(shouldRetry, t.attempts[k].value)
    {
      assert GoesOn(options, shouldRetry, world, k);
    }
    if world[m].before.Some? && 0 < m {
      assert GoesOn(options, shouldRetry, world, m - 1);
    }
  }

  /** The policy, behind both entry points. */
  method Attempt(options: Options, shouldRetry: Option<Failure -> bool>, world: seq<Surroundings>, retain: bool)
    returns (t: Trace)
    requires OptionsOk(options) && |world| == options.maxAttempts
    ensures Sound(options, shouldRetry, retain, t)
    ensures Explained(world, t)
    ensures forall k :: 0 <= k < |t.attempts| ==> t.attempts[k] == world[k].outcome
    ensures ContextNeverFails(world) ==> Persistent(options, shouldRetry, t)
    ensures exists m: nat :: StopsAt(options, shouldRetry, world, t, m)
    ensures WaitsAsPlanned(options, t)
  {
    ghost var m;
    t, m := Loop(options, shouldRetry, world, retain);
    StoppingIsSound(options, shouldRetry, world, retain, t, m);
  }
}
