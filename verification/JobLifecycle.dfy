/**
  The life of one compute job: the retry policies of src/compute-job-queue/retry-policy.service.ts,
  the handler of src/compute-job-queue/compute-job.processor.ts and the dead-letter queue of
  src/compute-job-queue/queue.service.ts.

  The queue runs a job again when its handler throws and attempts are left, and gives up otherwise.
*/
module JobLifecycle {
  import opened Wrappers
  import opened Text

  // ---------------------------------------------------------------- policies

  datatype BackoffType = Fixed | Exponential | Linear | Custom

  datatype Backoff = Backoff(kind: BackoffType, delay: real, factor: Option<real>, maxDelay: Option<real>)

  datatype Policy = Policy(maxAttempts: nat, backoff: Backoff, jitter: bool, minDelay: Option<real>)

  /** A configured policy as parsed; None where a number is missing or not finite. */
  datatype RawPolicy = RawPolicy(
    maxAttempts: Option<real>, kind: Option<BackoffType>, delay: Option<real>,
    factor: Option<real>, maxDelay: Option<real>, minDelay: Option<real>, jitter: Option<bool>)

  const DefaultPolicy := Policy(3, Backoff(Exponential, 2000.0, Some(2.0), Some(30000.0)), true, None)

  const TypePolicies: map<string, Policy> := map[
    "email-notification" := Policy(2, Backoff(Fixed, 1000.0, None, None), false, None),
    "batch-operation" := Policy(5, Backoff(Exponential, 1000.0, Some(1.5), Some(60000.0)), true, None),
    "data-processing" := Policy(3, Backoff(Linear, 2000.0, None, Some(10000.0)), true, None),
    "ai-computation" := Policy(4, Backoff(Exponential, 3000.0, Some(2.0), Some(120000.0)), true, None)
  ]

  /** A usable configured policy; a missing jitter flag is later filled from the default policy. */
  function NormalizePolicy(raw: RawPolicy): Option<Policy> {
    if raw.maxAttempts.None? || raw.maxAttempts.value.Floor as real != raw.maxAttempts.value || raw.maxAttempts.value < 1.0 then None
    else if raw.kind.None? || raw.delay.None? || raw.delay.value < 0.0 then None
    else
      Some(Policy(
        raw.maxAttempts.value.Floor,
        Backoff(raw.kind.value, raw.delay.value, raw.factor, raw.maxDelay),
        if raw.jitter.Some? then raw.jitter.value else DefaultPolicy.jitter,
        raw.minDelay))
  }

  /** The configured policies that are usable. */
  function LoadPolicies(parsed: map<string, RawPolicy>): map<string, Policy> {
    map t | t in parsed && NormalizePolicy(parsed[t]).Some? :: NormalizePolicy(parsed[t]).value
  }

  function GetPolicy(configured: map<string, Policy>, jobType: string): Policy {
    if jobType in configured then configured[jobType]
    else if jobType in TypePolicies then TypePolicies[jobType]
    else DefaultPolicy
  }

  /** Whatever is configured, every job type has at least one attempt. */
  lemma PolicyAttempts(parsed: map<string, RawPolicy>, jobType: string)
    ensures GetPolicy(LoadPolicies(parsed), jobType).maxAttempts >= 1
    ensures jobType in parsed && NormalizePolicy(parsed[jobType]).None? ==>
      GetPolicy(LoadPolicies(parsed), jobType) == GetPolicy(map[], jobType)
  {
    if jobType in LoadPolicies(parsed) {
      assert NormalizePolicy(parsed[jobType]).Some?;
    }
  }

  // ---------------------------------------------------------------- delays

  function Pow(f: real, n: nat): real { if n == 0 then 1.0 else f * Pow(f, n - 1) }

  function Scaled(delay: real, x: real): real { delay * x }

  /** A field that is absent or zero counts as unset. */
  predicate IsSet(v: Option<real>) { v.Some? && v.value != 0.0 }

  function RawDelay(b: Backoff, attempt: nat): real
    requires attempt >= 1
  {
    match b.kind
    case Fixed => b.delay
    case Linear => Scaled(b.delay, attempt as real)
    case Exponential => Scaled(b.delay, Pow(if IsSet(b.factor) then b.factor.value else 2.0, attempt - 1))
    case Custom => Scaled(b.delay, attempt as real)
  }

  function Bounded(p: Policy, delay: real): real {
    var d := if IsSet(p.minDelay) && delay < p.minDelay.value then p.minDelay.value else delay;
    if IsSet(p.backoff.maxDelay) && d > p.backoff.maxDelay.value then p.backoff.maxDelay.value else d
  }

  /** The delay before the next attempt; draw is the random number behind the jitter. */
  function RetryDelay(p: Policy, attempt: nat, draw: real): int
    requires attempt >= 1
  {
    var d := Bounded(p, RawDelay(p.backoff, attempt));
    Rounded(if p.jitter then Jittered(d, draw) else d)
  }

  function Rounded(x: real): int { x.Floor }

  /** The least whole number above x. */
  function NextWhole(x: real): real { (x.Floor + 1) as real }

  function Jittered(delay: real, draw: real): real { delay + draw * delay * 0.1 }

  method CalculateRetryDelay(policy: Policy, attemptNumber: nat, draw: real) returns (ms: int)
    requires attemptNumber >= 1
    ensures ms == RetryDelay(policy, attemptNumber, draw)
  {
    var delay := RawDelay(policy.backoff, attemptNumber);
    hide RawDelay;
    if IsSet(policy.minDelay) && delay < policy.minDelay.value {
      delay := policy.minDelay.value;
    }
    if IsSet(policy.backoff.maxDelay) && delay > policy.backoff.maxDelay.value {
      delay := policy.backoff.maxDelay.value;
    }
    if policy.jitter {
      delay := delay + draw * delay * 0.1;
    }
    ms := delay.Floor;
  }

  lemma {:induction false} PowPositive(f: real, n: nat)
    requires f >= 1.0
    ensures 1.0 <= Pow(f, n) <= Pow(f, n + 1)
  {
    if n > 0 {
      PowPositive(f, n - 1);
    }
  }

  lemma ScaleMonotone(delay: real, x: real, y: real)
    requires delay >= 0.0 && x <= y
    ensures Scaled(delay, x) <= Scaled(delay, y)
  {
    NonNegative(delay, y - x, Scaled(delay, y) - Scaled(delay, x));
  }

  /** Without jitter, and with no shrinking factor, later attempts never wait less. */
  lemma DelayGrows(p: Policy, attempt: nat, draw: real, draw': real)
    requires attempt >= 1 && !p.jitter && p.backoff.delay >= 0.0
    requires IsSet(p.backoff.factor) ==> p.backoff.factor.value >= 1.0
    ensures RetryDelay(p, attempt, draw) <= RetryDelay(p, attempt + 1, draw')
  {
    var f := if IsSet(p.backoff.factor) then p.backoff.factor.value else 2.0;
    hide Scaled, Pow;
    PowPositive(f, attempt - 1);
    ScaleMonotone(p.backoff.delay, Pow(f, attempt - 1), Pow(f, attempt));
    ScaleMonotone(p.backoff.delay, attempt as real, (attempt + 1) as real);
    assert RawDelay(p.backoff, attempt) <= RawDelay(p.backoff, attempt + 1);
    hide RawDelay;
    assert Bounded(p, RawDelay(p.backoff, attempt)) <= Bounded(p, RawDelay(p.backoff, attempt + 1));
  }

  /** Jitter comes after the cap: every draw respects the cap exactly when ten percent more rounds down to it. */
  lemma CapKeptIff(p: Policy, attempt: nat, cap: real)
    requires attempt >= 1 && p.jitter && p.backoff.maxDelay == Some(cap) && cap != 0.0
    ensures (forall draw: real :: 0.0 <= draw < 1.0 ==> RetryDelay(p, attempt, draw) as real <= cap)
       <==> Bounded(p, RawDelay(p.backoff, attempt)) * 1.1 <= NextWhole(cap)
  {
    hide RawDelay, Bounded, Jittered, Rounded, NextWhole;
    var d, limit := Bounded(p, RawDelay(p.backoff, attempt)), NextWhole(cap);
    CapBounds(p, RawDelay(p.backoff, attempt), cap);
    if d * 1.1 <= limit {
      forall draw: real | 0.0 <= draw < 1.0 ensures RetryDelay(p, attempt, draw) as real <= cap {
        JitterBelow(d, draw, limit);
        RoundsDown(Jittered(d, draw), cap);
      }
    } else {
      var draw := JitterAbove(d, limit);
      RoundsDown(Jittered(d, draw), cap);
      assert RetryDelay(p, attempt, draw) as real > cap;
    }
  }

  lemma CapBounds(p: Policy, delay: real, cap: real)
    requires p.backoff.maxDelay == Some(cap) && cap != 0.0
    ensures Bounded(p, delay) <= cap < NextWhole(cap)
  {
  }

  lemma RoundsDown(x: real, cap: real)
    ensures Rounded(x) as real <= cap <==> x < NextWhole(cap)
  {
    var m, n := x.Floor, cap.Floor;
    assert m as real <= x < (m + 1) as real && n as real <= cap < (n + 1) as real;
    if m <= n {
      assert (m + 1) as real <= (n + 1) as real;
    } else {
      assert m as real >= (n + 1) as real;
    }
  }

  lemma JitterBelow(d: real, draw: real, limit: real)
    requires 0.0 <= draw < 1.0 && d * 1.1 <= limit && d < limit
    ensures Jittered(d, draw) < limit
  {
    var t := draw * d;
    if d > 0.0 {
      assert t < d by {
        PositiveGap(1.0 - draw, d, d - t);
      }
    } else {
      NonNegative(draw, -d, -t);
    }
  }

  lemma PositiveGap(x: real, y: real, p: real)
    requires x > 0.0 && y > 0.0 && p == x * y
    ensures p > 0.0
  {
  }

  /** A draw that lifts the delay to the limit. */
  lemma JitterAbove(d: real, limit: real) returns (draw: real)
    requires d < limit < d * 1.1
    ensures 0.0 <= draw < 1.0 && Jittered(d, draw) >= limit
  {
    draw := (limit - d) / (d * 0.1);
    assert draw * (d * 0.1) == limit - d;
    assert draw * d * 0.1 == draw * (d * 0.1);
    JitterDraw(draw, d * 0.1, limit - d);
  }

  lemma JitterDraw(draw: real, tenth: real, gap: real)
    requires tenth > 0.0 && 0.0 < gap < tenth && draw * tenth == gap
    ensures 0.0 <= draw < 1.0
  {
    if draw >= 1.0 {
      NonNegative(draw - 1.0, tenth, gap - tenth);
    } else if draw < 0.0 {
      NonNegative(-draw, tenth, -gap);
    }
  }

  lemma NonNegative(x: real, y: real, p: real)
    requires x >= 0.0 && y >= 0.0 && p == x * y
    ensures p >= 0.0
  {
  }

  // ---------------------------------------------------------------- one attempt

  datatype Error = Error(name: string, message: string)

  /** What the work of one attempt comes to. */
  datatype Attempt = CacheHit(data: int) | CacheOnlyMiss | Works(data: int) | Throws(error: Error)

  datatype Result = Succeeded(data: int) | NotCached | GaveUp(error: Error)

  /** A dead-letter entry records the attempts made and the error. */
  datatype DeadLetter = DeadLetter(attempts: nat, error: Error)

  const NonRetryableErrors: seq<string> :=
    ["ValidationError", "AuthenticationError", "BadRequestError", "Email recipient is required"]

  predicate NonRetryable(e: Error) {
    exists k :: 0 <= k < |NonRetryableErrors| && (e.name == NonRetryableErrors[k] || Contains(e.message, NonRetryableErrors[k]))
  }

  predicate ShouldRetry(attemptsMade: nat, maxAttempts: nat, e: Error) {
    attemptsMade < maxAttempts - 1 && !NonRetryable(e)
  }

  /** The handler throws exactly when it wants a retry; otherwise it returns, after filing a dead letter on errors. */
  datatype Handled = Returned(result: Result) | Rethrown(error: Error)

  function Handle(a: Attempt, attemptsMade: nat, maxAttempts: nat): Handled {
    match a
    case CacheHit(data) => Returned(Succeeded(data))
    case CacheOnlyMiss => Returned(NotCached)
    case Works(data) => Returned(Succeeded(data))
    case Throws(e) => if ShouldRetry(attemptsMade, maxAttempts, e) then Rethrown(e) else Returned(GaveUp(e))
  }

  // ---------------------------------------------------------------- the life of a job

  /** How a job ended, and the number of its last run, counted from zero: with its handler's result, or lost by the queue. */
  datatype Ending = Completed(result: Result, last: nat) | Lost(error: Error, last: nat)

  /** The queue's loop: attempt k of the script is what the work comes to on run k. */
  function LifeFrom(script: nat -> Attempt, k: nat, budget: nat, maxAttempts: nat): Ending
    requires k < budget
    decreases budget - k
  {
    match Handle(script(k), k, maxAttempts)
    case Returned(r) => Completed(r, k)
    case Rethrown(e) => if k + 1 < budget then LifeFrom(script, k + 1, budget, maxAttempts) else Lost(e, k)
  }

  function Life(script: nat -> Attempt, budget: nat, maxAttempts: nat): Ending
    requires budget > 0
  {
    LifeFrom(script, 0, budget, maxAttempts)
  }

  /** The entries a job leaves, given whether the dead-letter queue accepts them. */
  function DeadLetters(e: Ending, accepts: bool): seq<DeadLetter> {
    if e.Completed? && e.result.GaveUp? && accepts then [DeadLetter(e.last, e.result.error)] else []
  }

  class Worker {
    var deadLetterQueue: seq<DeadLetter>

    constructor ()
      ensures deadLetterQueue == []
    {
      deadLetterQueue := [];
    }

    /** Adding to the dead-letter queue may fail, which is logged and ignored. */
    method MoveToDeadLetter(attemptsMade: nat, error: Error, accepts: bool)
      modifies this
      ensures deadLetterQueue == old(deadLetterQueue) + if accepts then [DeadLetter(attemptsMade, error)] else []
    {
      if accepts {
        deadLetterQueue := deadLetterQueue + [DeadLetter(attemptsMade, error)];
      }
    }

    method HandleComputeJob(attempt: Attempt, attemptsMade: nat, maxAttempts: nat, accepts: bool) returns (handled: Handled)
      modifies this
      ensures handled == Handle(attempt, attemptsMade, maxAttempts)
      ensures deadLetterQueue == old(deadLetterQueue) +
        if handled.Returned? && handled.result.GaveUp? && accepts then [DeadLetter(attemptsMade, handled.result.error)] else []
    {
      match attempt {
        case CacheHit(data) => handled := Returned(Succeeded(data));
        case CacheOnlyMiss => handled := Returned(NotCached);
        case Works(data) => handled := Returned(Succeeded(data));
        case Throws(e) =>
          if ShouldRetry(attemptsMade, maxAttempts, e) {
            handled := Rethrown(e);
          } else {
            MoveToDeadLetter(attemptsMade, e, accepts);
            handled := Returned(GaveUp(e));
          }
      }
    }

    /** The queue runs a job until its handler returns or its attempts are used up. */
    method ProcessJob(script: nat -> Attempt, budget: nat, maxAttempts: nat, accepts: bool) returns (ending: Ending)
      requires budget > 0
      modifies this
      ensures ending == Life(script, budget, maxAttempts)
      ensures deadLetterQueue == old(deadLetterQueue) + DeadLetters(ending, accepts)
    {
      hide Handle;
      var attemptsMade := 0;
      while true
        invariant attemptsMade < budget
        invariant LifeFrom(script, attemptsMade, budget, maxAttempts) == Life(script, budget, maxAttempts)
        invariant deadLetterQueue == old(deadLetterQueue)
        decreases budget - attemptsMade
      {
        var handled := HandleComputeJob(script(attemptsMade), attemptsMade, maxAttempts, accepts);
        if handled.Returned? {
          return Completed(handled.result, attemptsMade);
        }
        if attemptsMade + 1 >= budget {
          return Lost(handled.error, attemptsMade);
        }
        attemptsMade := attemptsMade + 1;
      }
    }
  }

  /** An attempt after which the handler asks for another one, if it has any left. */
  predicate Retryable(a: Attempt) { a.Throws? && !NonRetryable(a.error) }

  /** The first attempt from k on that is not retryable, or the last one allowed. */
  function LastRun(script: nat -> Attempt, k: nat, maxAttempts: nat): nat
    requires k < maxAttempts
    decreases maxAttempts - k
  {
    if k == maxAttempts - 1 || !Retryable(script(k)) then k else LastRun(script, k + 1, maxAttempts)
  }

  lemma {:induction false} LastRunIsFirst(script: nat -> Attempt, k: nat, maxAttempts: nat)
    requires k < maxAttempts
    ensures var t := LastRun(script, k, maxAttempts);
      && k <= t < maxAttempts
      && (forall j :: k <= j < t ==> Retryable(script(j)))
      && (t < maxAttempts - 1 ==> !Retryable(script(t)))
    decreases maxAttempts - k
  {
    if k < maxAttempts - 1 && Retryable(script(k)) {
      LastRunIsFirst(script, k + 1, maxAttempts);
    }
  }

  lemma {:induction false} LifeEnds(script: nat -> Attempt, k: nat, budget: nat, maxAttempts: nat)
    requires k < maxAttempts <= budget
    ensures var t := LastRun(script, k, maxAttempts);
      LifeFrom(script, k, budget, maxAttempts) == Completed(match script(t)
                                                            case CacheHit(data) => Succeeded(data)
                                                            case CacheOnlyMiss => NotCached
                                                            case Works(data) => Succeeded(data)
                                                            case Throws(e) => GaveUp(e), t)
    decreases maxAttempts - k
  {
    if k < maxAttempts - 1 && Retryable(script(k)) {
      LifeEnds(script, k + 1, budget, maxAttempts);
    }
  }

  /**
    A job given at least the policy's attempts runs exactly until its first result, its first
    non-retryable error or its last attempt, and is never lost: it leaves one dead letter if that run
    failed and none otherwise.
  */
  lemma JobNeverLost(script: nat -> Attempt, budget: nat, maxAttempts: nat)
    requires 1 <= maxAttempts <= budget
    ensures var t := LastRun(script, 0, maxAttempts); var e := Life(script, budget, maxAttempts);
      && e.Completed? && e.last == t < maxAttempts
      && (script(t).Throws? ==> e.result == GaveUp(script(t).error) && DeadLetters(e, true) == [DeadLetter(t, script(t).error)])
      && (!script(t).Throws? ==> !e.result.GaveUp? && DeadLetters(e, true) == [])
  {
    LifeEnds(script, 0, budget, maxAttempts);
    LastRunIsFirst(script, 0, maxAttempts);
  }

  const Flaky := Throws(Error("Error", ""))

  lemma FlakyRetryable()
    ensures Retryable(Flaky)
  {
    forall k | 0 <= k < |NonRetryableErrors| ensures !Contains("", NonRetryableErrors[k]) && "Error" != NonRetryableErrors[k] {
      assert |NonRetryableErrors[k]| > 5;
    }
  }

  lemma {:induction false} FlakyLost(k: nat, budget: nat, maxAttempts: nat)
    requires k < budget < maxAttempts
    ensures LifeFrom((i: nat) => Flaky, k, budget, maxAttempts) == Lost(Flaky.error, budget - 1)
    decreases budget - k
  {
    FlakyRetryable();
    if k + 1 < budget {
      FlakyLost(k + 1, budget, maxAttempts);
    }
  }

  /** The attempts given to the queue save every job from being lost exactly when they cover the policy's. */
  lemma NeverLostIff(budget: nat, maxAttempts: nat)
    requires budget > 0 && maxAttempts > 0
    ensures (forall script: nat -> Attempt :: Life(script, budget, maxAttempts).Completed?) <==> budget >= maxAttempts
  {
    if budget >= maxAttempts {
      forall script: nat -> Attempt ensures Life(script, budget, maxAttempts).Completed? {
        JobNeverLost(script, budget, maxAttempts);
      }
    } else {
      FlakyLost(0, budget, maxAttempts);
      var script: nat -> Attempt := (i: nat) => Flaky;
      assert Life(script, budget, maxAttempts).Lost?;
    }
  }

  /** addComputeJob gives the queue the policy's attempts unless the caller asks for another number. */
  function Attempts(configured: map<string, Policy>, jobType: string, asked: Option<nat>): nat {
    if asked.Some? then asked.value else GetPolicy(configured, jobType).maxAttempts
  }

  /** A job submitted without an attempts option is never lost, whatever is configured. */
  lemma SubmittedNeverLost(parsed: map<string, RawPolicy>, jobType: string, script: nat -> Attempt)
    ensures var configured := LoadPolicies(parsed); var budget := Attempts(configured, jobType, None);
      budget > 0 && Life(script, budget, GetPolicy(configured, jobType).maxAttempts).Completed?
  {
    PolicyAttempts(parsed, jobType);
    var max := GetPolicy(LoadPolicies(parsed), jobType).maxAttempts;
    JobNeverLost(script, max, max);
  }
}
