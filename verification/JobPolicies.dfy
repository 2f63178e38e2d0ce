/**
  The numbers behind src/compute-job-queue/retry-policy.service.ts and the errors that
  src/compute-job-queue/compute-job.processor.ts gives up on, written out.
*/
module JobPolicies {
  import opened Wrappers
  import opened Text
  import opened JobLifecycle

  // ---------------------------------------------------------------- which policy

  /** Without a usable configured policy a job type has the one built in for it, or the common one. */
  lemma BuiltIn(configured: map<string, Policy>, jobType: string)
    requires jobType !in configured
    ensures GetPolicy(configured, jobType) ==
      if jobType == "email-notification" then Policy(2, Backoff(Fixed, 1000.0, None, None), false, None)
      else if jobType == "batch-operation" then Policy(5, Backoff(Exponential, 1000.0, Some(1.5), Some(60000.0)), true, None)
      else if jobType == "data-processing" then Policy(3, Backoff(Linear, 2000.0, None, Some(10000.0)), true, None)
      else if jobType == "ai-computation" then Policy(4, Backoff(Exponential, 3000.0, Some(2.0), Some(120000.0)), true, None)
      else Policy(3, Backoff(Exponential, 2000.0, Some(2.0), Some(30000.0)), true, None)
  {
  }

  /** A configured policy is usable if it asks for a whole number of attempts, at least one, and a delay that is not negative. */
  predicate Usable(raw: RawPolicy) {
    && raw.maxAttempts.Some? && raw.maxAttempts.value >= 1.0 && raw.maxAttempts.value == raw.maxAttempts.value.Floor as real
    && raw.kind.Some? && raw.delay.Some? && raw.delay.value >= 0.0
  }

  /** A usable configured policy holds as it was written, with jitter unless it says otherwise; any other is passed over. */
  lemma ConfiguredIs(parsed: map<string, RawPolicy>, jobType: string)
    ensures jobType in parsed && Usable(parsed[jobType]) ==>
      var raw, p := parsed[jobType], GetPolicy(LoadPolicies(parsed), jobType);
      && p.maxAttempts as real == raw.maxAttempts.value
      && p.backoff == Backoff(raw.kind.value, raw.delay.value, raw.factor, raw.maxDelay)
      && p.minDelay == raw.minDelay && p.jitter == (raw.jitter != Some(false))
    ensures jobType !in parsed || !Usable(parsed[jobType]) ==>
      GetPolicy(LoadPolicies(parsed), jobType) == GetPolicy(map[], jobType)
  {
    if jobType in parsed {
      UsableIff(parsed[jobType]);
    }
  }

  lemma UsableIff(raw: RawPolicy)
    ensures NormalizePolicy(raw).Some? <==> Usable(raw)
  {
  }

  /** The queue gets the number of attempts that the caller asks for, or else the policy's. */
  lemma AttemptsAre(configured: map<string, Policy>, jobType: string, n: nat)
    ensures Attempts(configured, jobType, Some(n)) == n
    ensures Attempts(configured, jobType, None) == GetPolicy(configured, jobType).maxAttempts
  {
  }

  // ---------------------------------------------------------------- how long it waits

  /**
    Before bounds and jitter: every policy starts at its delay; a fixed one stays there, a linear or custom one
    adds the delay with every attempt, an exponential one multiplies by its factor, two if none is set.
  */
  lemma DelaySteps(b: Backoff, attempt: nat)
    requires attempt >= 1
    ensures RawDelay(b, 1) == b.delay
    ensures b.kind == Fixed ==> RawDelay(b, attempt + 1) == RawDelay(b, attempt)
    ensures b.kind == Linear || b.kind == Custom ==> RawDelay(b, attempt + 1) == RawDelay(b, attempt) + b.delay
    ensures b.kind == Exponential ==>
      RawDelay(b, attempt + 1) == RawDelay(b, attempt) * (if b.factor == None || b.factor == Some(0.0) then 2.0 else b.factor.value)
  {
    hide Scaled, Pow;
    var f := if b.factor == None || b.factor == Some(0.0) then 2.0 else b.factor.value;
    PowSteps(f, attempt);
    Regroup(b.delay, f, Pow(f, attempt - 1));
    ScaledOnce(b.delay);
    Distribute(b.delay, attempt as real);
    assert (attempt + 1) as real == attempt as real + 1.0;
  }

  lemma PowSteps(f: real, n: nat)
    requires n >= 1
    ensures Pow(f, 0) == 1.0 && Pow(f, n) == f * Pow(f, n - 1)
  {
  }

  lemma ScaledOnce(d: real)
    ensures Scaled(d, 1.0) == d
  {
  }

  lemma Regroup(d: real, f: real, p: real)
    ensures Scaled(d, f * p) == Scaled(d, p) * f
  {
  }

  lemma Distribute(d: real, x: real)
    ensures Scaled(d, x + 1.0) == Scaled(d, x) + d
  {
  }

  /** The policy sets a bound: zero is none. */
  predicate Sets(bound: Option<real>) { bound != None && bound != Some(0.0) }

  /**
    The wait in milliseconds is d rounded down, with a tenth of d times the draw on top if the policy has jitter.
    d is the delay of the attempt where that keeps the bounds; otherwise it is the bound that was not kept, the
    upper one if both cannot be.
  */
  lemma WaitIs(p: Policy, attempt: nat, draw: real) returns (d: real)
    requires attempt >= 1
    ensures RetryDelay(p, attempt, draw) == (if p.jitter then d + d * draw / 10.0 else d).Floor
    ensures Sets(p.backoff.maxDelay) ==> d <= p.backoff.maxDelay.value
    ensures Sets(p.minDelay) ==> d >= p.minDelay.value || (Sets(p.backoff.maxDelay) && d == p.backoff.maxDelay.value < p.minDelay.value)
    ensures d > RawDelay(p.backoff, attempt) ==> Sets(p.minDelay) && d <= p.minDelay.value
    ensures d < RawDelay(p.backoff, attempt) ==> Sets(p.backoff.maxDelay) && d == p.backoff.maxDelay.value
  {
    d := Bounded(p, RawDelay(p.backoff, attempt));
    hide RawDelay, Bounded, Jittered;
    BoundedIs(p, RawDelay(p.backoff, attempt));
    TenthIs(d, draw);
  }

  lemma BoundedIs(p: Policy, x: real)
    ensures var d := Bounded(p, x);
      && (Sets(p.backoff.maxDelay) ==> d <= p.backoff.maxDelay.value)
      && (Sets(p.minDelay) ==> d >= p.minDelay.value || (Sets(p.backoff.maxDelay) && d == p.backoff.maxDelay.value < p.minDelay.value))
      && (d > x ==> Sets(p.minDelay) && d <= p.minDelay.value)
      && (d < x ==> Sets(p.backoff.maxDelay) && d == p.backoff.maxDelay.value)
  {
  }

  lemma TenthIs(d: real, draw: real)
    ensures Jittered(d, draw) == d + d * draw / 10.0
  {
  }

  // ---------------------------------------------------------------- what is tried again

  /** An error that is one of these by its name, or mentions one in its message, is not worth another attempt. */
  predicate Hopeless(e: Error) {
    || e.name == "ValidationError" || Contains(e.message, "ValidationError")
    || e.name == "AuthenticationError" || Contains(e.message, "AuthenticationError")
    || e.name == "BadRequestError" || Contains(e.message, "BadRequestError")
    || e.name == "Email recipient is required" || Contains(e.message, "Email recipient is required")
  }

  lemma HopelessIff(e: Error)
    ensures NonRetryable(e) <==> Hopeless(e)
  {
    hide Contains;
    var errors := NonRetryableErrors;
    assert errors[0] == "ValidationError" && errors[1] == "AuthenticationError";
    assert errors[2] == "BadRequestError" && errors[3] == "Email recipient is required";
  }

  /** What the handler makes of an attempt: it asks for another run after an error exactly when one may help and one is left. */
  lemma HandledIs(a: Attempt, attemptsMade: nat, maxAttempts: nat)
    ensures Handle(a, attemptsMade, maxAttempts) ==
      match a
      case CacheHit(data) => Returned(Succeeded(data))
      case CacheOnlyMiss => Returned(NotCached)
      case Works(data) => Returned(Succeeded(data))
      case Throws(e) => if attemptsMade + 1 < maxAttempts && !Hopeless(e) then Rethrown(e) else Returned(GaveUp(e))
  {
    hide NonRetryable, Hopeless;
    if a.Throws? {
      HopelessIff(a.error);
    }
  }

  /**
    A job with at least the policy's attempts ends with its first attempt that does not throw, throws something
    hopeless, or is the last one allowed: with that attempt's result, or with one dead letter for its error.
  */
  lemma {:induction false} JobEndsAt(script: nat -> Attempt, budget: nat, maxAttempts: nat, t: nat)
    requires 1 <= maxAttempts <= budget && t < maxAttempts
    requires forall j :: 0 <= j < t ==> script(j).Throws? && !Hopeless(script(j).error)
    requires t == maxAttempts - 1 || !script(t).Throws? || Hopeless(script(t).error)
    ensures Life(script, budget, maxAttempts) ==
      Completed(match script(t)
                case CacheHit(data) => Succeeded(data)
                case CacheOnlyMiss => NotCached
                case Works(data) => Succeeded(data)
                case Throws(e) => GaveUp(e), t)
    ensures DeadLetters(Life(script, budget, maxAttempts), true)
         == if script(t).Throws? then [DeadLetter(t, script(t).error)] else []
  {
    hide Hopeless, Handle;
    EndsFrom(script, 0, budget, maxAttempts, t);
  }

  lemma {:induction false} EndsFrom(script: nat -> Attempt, k: nat, budget: nat, maxAttempts: nat, t: nat)
    requires 1 <= maxAttempts <= budget && k <= t < maxAttempts
    requires forall j :: k <= j < t ==> script(j).Throws? && !Hopeless(script(j).error)
    requires t == maxAttempts - 1 || !script(t).Throws? || Hopeless(script(t).error)
    ensures LifeFrom(script, k, budget, maxAttempts) ==
      Completed(match script(t)
                case CacheHit(data) => Succeeded(data)
                case CacheOnlyMiss => NotCached
                case Works(data) => Succeeded(data)
                case Throws(e) => GaveUp(e), t)
    decreases t - k
  {
    hide Hopeless, Handle;
    HandledIs(script(k), k, maxAttempts);
    if k < t {
      EndsFrom(script, k + 1, budget, maxAttempts, t);
    }
  }
}
