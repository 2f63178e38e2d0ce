/**
  The dynamic limit scaler of src/quota/dynamic-rate-limit-scaling.service.ts: rate-limited,
  anti-oscillating multipliers, and usage counted in pruned buckets.

  Time is whole milliseconds and never runs backwards; multipliers are real.
*/
module LimitScaler {
  import opened Wrappers

  datatype Config = Config(minScale: real, maxScale: real, maxStepChange: real, cooldownMs: int)

  /** What a history remembers of its past decisions. */
  datatype Memory = Memory(previousMultiplier: real, lastDirection: int, lastDirectionAt: int)

  /** One decision: the target multiplier and when it is asked for. */
  datatype Decision = Decision(target: real, now: int)

  ghost predicate ValidConfig(c: Config) {
    0.0 < c.minScale <= 1.0 <= c.maxScale && c.maxStepChange > 0.0 && c.cooldownMs > 0
  }

  function Sign(v: real): int { if v > 0.0 then 1 else if v < 0.0 then -1 else 0 }

  function Delta(c: Config, m: Memory, target: real): real {
    ClampReal(target - m.previousMultiplier, -c.maxStepChange, c.maxStepChange)
  }

  /** A move against the last direction that comes too soon after it. */
  predicate Holds(c: Config, m: Memory, d: Decision) {
    var direction := Sign(Delta(c, m, d.target));
    direction != 0 && m.lastDirection != 0 && direction != m.lastDirection && d.now - m.lastDirectionAt < c.cooldownMs
  }

  function Decide(c: Config, m: Memory, d: Decision): Memory {
    if Holds(c, m, d) then m
    else
      var delta := Delta(c, m, d.target);
      var candidate := ClampReal(m.previousMultiplier + delta, c.minScale, c.maxScale);
      if delta != 0.0 then Memory(candidate, Sign(delta), d.now) else m.(previousMultiplier := candidate)
  }

  const Initial := Memory(1.0, 0, 0)

  class UsageHistory {
    var previousMultiplier: real
    var lastDirection: int
    var lastDirectionAt: int
    var buckets: map<nat, nat>
    const cfg: Config
    const bucketMs: real

    ghost function Remembered(): Memory
      reads this
    {
      Memory(previousMultiplier, lastDirection, lastDirectionAt)
    }

    constructor (cfg: Config, bucketMs: real)
      ensures this.cfg == cfg && this.bucketMs == bucketMs && Remembered() == Initial && buckets == map[]
    {
      this.cfg, this.bucketMs := cfg, bucketMs;
      previousMultiplier, lastDirection, lastDirectionAt, buckets := 1.0, 0, 0, map[];
    }

    method ApplyGradualChange(target: real, now: int) returns (multiplier: real)
      modifies this`previousMultiplier, this`lastDirection, this`lastDirectionAt
      ensures Remembered() == Decide(cfg, old(Remembered()), Decision(target, now))
      ensures multiplier == previousMultiplier
    {
      var previous := previousMultiplier;
      var delta := ClampReal(target - previous, -cfg.maxStepChange, cfg.maxStepChange);
      var candidate := ClampReal(previous + delta, cfg.minScale, cfg.maxScale);
      var direction := Sign(delta);
      if direction != 0 && lastDirection != 0 && direction != lastDirection && now - lastDirectionAt < cfg.cooldownMs {
        return previous;
      }
      if direction != 0 {
        lastDirection := direction;
        lastDirectionAt := now;
      }
      previousMultiplier := candidate;
      multiplier := candidate;
    }

    method AddUsageEvent(now: nat)
      requires bucketMs > 0.0
      modifies this`buckets
      ensures buckets == Add(old(buckets), BucketOf(now, bucketMs), Retention(bucketMs))
    {
      var bucket := BucketOf(now, bucketMs);
      buckets := buckets[bucket := Get(buckets, bucket) + 1];
      var expiredBefore := bucket - Retention(bucketMs);
      var all := buckets;
      var rest := all.Keys;
      while rest != {}
        invariant rest <= all.Keys
        invariant buckets == map b | b in all && (b in rest || b >= expiredBefore) :: all[b]
      {
        HasMember(rest);
        var key :| key in rest;
        if key < expiredBefore {
          buckets := buckets - {key};
        }
        rest := rest - {key};
      }
    }

    method GetRecentRate(now: nat, horizonMs: real) returns (rate: real)
      requires bucketMs > 0.0
      ensures rate == Rate(Total(buckets, BucketOf(now, bucketMs), Width(horizonMs, bucketMs)), horizonMs, bucketMs)
    {
      var nowBucket := BucketOf(now, bucketMs);
      var bucketCount := Width(horizonMs, bucketMs);
      var total := 0;
      for i := 0 to bucketCount
        invariant total == Total(buckets, nowBucket, i)
      {
        total := total + Get(buckets, nowBucket - i);
      }
      rate := Rate(total, horizonMs, bucketMs);
    }
  }

  // ---------------------------------------------------------------- multipliers over whole runs

  /** What is remembered after each prefix of the decisions. */
  function After(c: Config, ds: seq<Decision>): Memory {
    if ds == [] then Initial else Decide(c, After(c, ds[..|ds| - 1]), ds[|ds| - 1])
  }

  ghost predicate Ordered(ds: seq<Decision>) {
    forall j, k :: 0 <= j <= k < |ds| ==> ds[j].now <= ds[k].now
  }

  /** getAdjustment clamps every target before it asks for the change. */
  ghost predicate GoodTargets(c: Config, ds: seq<Decision>) {
    forall k :: 0 <= k < |ds| ==> c.minScale <= ds[k].target <= c.maxScale
  }

  /** Which way decision k moved the multiplier. */
  function Move(c: Config, ds: seq<Decision>, k: nat): int
    requires k < |ds|
  {
    Sign(After(c, ds[..k + 1]).previousMultiplier - After(c, ds[..k]).previousMultiplier)
  }

  lemma StepBounds(c: Config, m: Memory, d: Decision)
    requires ValidConfig(c) && c.minScale <= m.previousMultiplier <= c.maxScale && c.minScale <= d.target <= c.maxScale
    ensures var change := Decide(c, m, d).previousMultiplier - m.previousMultiplier;
      && c.minScale <= Decide(c, m, d).previousMultiplier <= c.maxScale
      && -c.maxStepChange <= change <= c.maxStepChange
      && (if Holds(c, m, d) then change == 0.0 else Sign(change) == Sign(Delta(c, m, d.target)))
  {
  }

  /** Every multiplier of a run lies in the configured range, and no decision moves it by more than the step. */
  lemma {:induction false} RunBounds(c: Config, ds: seq<Decision>)
    requires ValidConfig(c) && GoodTargets(c, ds)
    ensures c.minScale <= After(c, ds).previousMultiplier <= c.maxScale
    ensures ds != [] ==>
      -c.maxStepChange
      <= After(c, ds).previousMultiplier - After(c, ds[..|ds| - 1]).previousMultiplier
      <= c.maxStepChange
  {
    if ds != [] {
      RunBounds(c, ds[..|ds| - 1]);
      hide Decide;
      StepBounds(c, After(c, ds[..|ds| - 1]), ds[|ds| - 1]);
    }
  }

  lemma Prefixes(c: Config, ds: seq<Decision>, k: nat)
    requires k < |ds|
    ensures After(c, ds[..k + 1]) == Decide(c, After(c, ds[..k]), ds[k])
  {
    assert ds[..k + 1][..k] == ds[..k];
  }

  /** The memory names the last move: none yet, or decision m, with its direction and time. */
  ghost predicate LastMove(c: Config, ds: seq<Decision>, m: int) {
    var memory := After(c, ds);
    && -1 <= m < |ds|
    && (forall k :: m < k < |ds| ==> Move(c, ds, k) == 0)
    && (m == -1 <==> memory.lastDirection == 0)
    && (m >= 0 ==> memory.lastDirection == Move(c, ds, m) && memory.lastDirectionAt == ds[m].now)
  }

  lemma MoveInPrefix(c: Config, ds: seq<Decision>, n: nat, k: nat)
    requires k < n <= |ds|
    ensures Move(c, ds[..n], k) == Move(c, ds, k)
  {
    assert ds[..n][..k + 1] == ds[..k + 1] && ds[..n][..k] == ds[..k];
  }

  /** The move of the last decision. */
  lemma NewestMove(c: Config, ds: seq<Decision>)
    requires ValidConfig(c) && GoodTargets(c, ds) && ds != []
    ensures var before, d := After(c, ds[..|ds| - 1]), ds[|ds| - 1];
      Move(c, ds, |ds| - 1) == if Holds(c, before, d) then 0 else Sign(Delta(c, before, d.target))
  {
    var n := |ds| - 1;
    RunBounds(c, ds[..n]);
    Prefixes(c, ds, n);
    assert ds[..n + 1] == ds;
    StepBounds(c, After(c, ds[..n]), ds[n]);
  }

  lemma {:induction false} FindLastMove(c: Config, ds: seq<Decision>) returns (m: int)
    requires ValidConfig(c) && GoodTargets(c, ds)
    ensures LastMove(c, ds, m)
  {
    m := -1;
    if ds != [] {
      var n := |ds| - 1;
      var front := ds[..n];
      m := FindLastMove(c, front);
      NewestMove(c, ds);
      forall k | 0 <= k < n ensures Move(c, ds, k) == Move(c, front, k) {
        MoveInPrefix(c, ds, n, k);
      }
      if Move(c, ds, n) != 0 {
        m := n;
      }
    }
  }

  /** Any two moves in opposite directions, adjacent or not, are at least the cooldown apart. */
  lemma {:induction false} OppositeMovesApart(c: Config, ds: seq<Decision>, i: nat, j: nat)
    requires ValidConfig(c) && GoodTargets(c, ds) && Ordered(ds)
    requires i < j < |ds| && Move(c, ds, i) != 0 && Move(c, ds, j) == -Move(c, ds, i)
    ensures ds[j].now - ds[i].now >= c.cooldownMs
    decreases j
  {
    hide After, Move, Delta;
    var front, upTo := ds[..j], ds[..j + 1];
    assert upTo[..|upTo| - 1] == front;
    MoveInPrefix(c, ds, j + 1, j);
    MoveInPrefix(c, ds, j, i);
    NewestMove(c, upTo);
    var m := FindLastMove(c, front);
    MoveInPrefix(c, ds, j, m);
    if Move(c, ds, m) == Move(c, ds, j) {
      OppositeMovesApart(c, ds, i, m);
    }
  }

  // ---------------------------------------------------------------- what every decision does

  /** The multiplier after the first k decisions. */
  function Multiplier(c: Config, ds: seq<Decision>, k: nat): real
    requires k <= |ds|
  {
    After(c, ds[..k]).previousMultiplier
  }

  /** Decision i is the last before k that changed the multiplier. */
  ghost predicate ChangedLast(c: Config, ds: seq<Decision>, i: nat, k: nat)
    requires i < k <= |ds|
  {
    && Multiplier(c, ds, i + 1) != Multiplier(c, ds, i)
    && forall j :: i < j < k ==> Multiplier(c, ds, j + 1) == Multiplier(c, ds, j)
  }

  /** Decision i raised the multiplier and decision k would lower it, or the other way round. */
  predicate Opposed(c: Config, ds: seq<Decision>, i: nat, k: nat)
    requires i < k < |ds|
  {
    || (Multiplier(c, ds, i + 1) > Multiplier(c, ds, i) && ds[k].target < Multiplier(c, ds, k))
    || (Multiplier(c, ds, i + 1) < Multiplier(c, ds, i) && ds[k].target > Multiplier(c, ds, k))
  }

  /** The last change before decision k went the other way, less than the cooldown before. */
  ghost predicate TooSoon(c: Config, ds: seq<Decision>, k: nat)
    requires k < |ds|
  {
    exists i :: 0 <= i < k && ChangedLast(c, ds, i, k) && Opposed(c, ds, i, k) && ds[k].now - ds[i].now < c.cooldownMs
  }

  lemma MoveMeans(c: Config, ds: seq<Decision>, k: nat)
    requires k < |ds|
    ensures Move(c, ds, k) == 0 <==> Multiplier(c, ds, k + 1) == Multiplier(c, ds, k)
    ensures Move(c, ds, k) > 0 <==> Multiplier(c, ds, k + 1) > Multiplier(c, ds, k)
  {
  }

  /** A last move in the memory is the last decision that changed the multiplier. */
  lemma LastMoveChanged(c: Config, ds: seq<Decision>, k: nat, m: int)
    requires k < |ds| && LastMove(c, ds[..k], m)
    ensures m >= 0 ==> Move(c, ds[..k], m) == Move(c, ds, m)
    ensures m >= 0 && Move(c, ds, m) != 0 ==> ChangedLast(c, ds, m, k)
    ensures forall i :: 0 <= i < k && ChangedLast(c, ds, i, k) ==> i == m
  {
    hide After, Move, Multiplier;
    if m >= 0 {
      MoveInPrefix(c, ds, k, m);
      MoveMeans(c, ds, m);
    }
    forall j | m < j < k ensures Multiplier(c, ds, j + 1) == Multiplier(c, ds, j) {
      MoveInPrefix(c, ds, k, j);
      MoveMeans(c, ds, j);
    }
  }

  /** The change that one decision makes. */
  lemma DecideMoves(c: Config, m: Memory, d: Decision)
    requires -1 <= m.lastDirection <= 1
    requires ValidConfig(c) && c.minScale <= m.previousMultiplier <= c.maxScale && c.minScale <= d.target <= c.maxScale
    ensures var gap, change := d.target - m.previousMultiplier, Decide(c, m, d).previousMultiplier - m.previousMultiplier;
      && (gap == 0.0 ==> change == 0.0)
      && (gap > 0.0 && m.lastDirection < 0 && d.now - m.lastDirectionAt < c.cooldownMs ==> change == 0.0)
      && (gap < 0.0 && m.lastDirection > 0 && d.now - m.lastDirectionAt < c.cooldownMs ==> change == 0.0)
      && (gap > 0.0 && !(m.lastDirection < 0 && d.now - m.lastDirectionAt < c.cooldownMs) ==>
            change == if gap < c.maxStepChange then gap else c.maxStepChange)
      && (gap < 0.0 && !(m.lastDirection > 0 && d.now - m.lastDirectionAt < c.cooldownMs) ==>
            change == if -gap < c.maxStepChange then gap else -c.maxStepChange)
  {
  }

  /** A move in the memory is by one, up or down. */
  lemma {:induction false} DirectionIs(c: Config, ds: seq<Decision>)
    ensures -1 <= After(c, ds).lastDirection <= 1
  {
    if ds != [] {
      DirectionIs(c, ds[..|ds| - 1]);
    }
  }

  /**
    What every decision of every run does, in terms of multipliers, targets and times alone. It leaves the
    multiplier where it is if and only if that is the target, or the last change before went the other way less
    than the cooldown before. Otherwise it moves towards the target by the distance or the step, whichever is less.
  */
  lemma {:induction false} DecisionIs(c: Config, ds: seq<Decision>, k: nat)
    requires ValidConfig(c) && GoodTargets(c, ds) && k < |ds|
    ensures var before, after, target := Multiplier(c, ds, k), Multiplier(c, ds, k + 1), ds[k].target;
      && (after == before <==> target == before || TooSoon(c, ds, k))
      && (after != before ==>
            after - before == if target > before then (if target - before < c.maxStepChange then target - before else c.maxStepChange)
                              else (if before - target < c.maxStepChange then target - before else -c.maxStepChange))
    ensures Multiplier(c, ds, 0) == 1.0
  {
    hide Decide, After, Move;
    var m := FindLastMove(c, ds[..k]);
    LastMoveChanged(c, ds, k, m);
    RunBounds(c, ds[..k]);
    Prefixes(c, ds, k);
    DirectionIs(c, ds[..k]);
    DecideMoves(c, After(c, ds[..k]), ds[k]);
    StartsAtOne(c, ds);
    if m >= 0 {
      MoveMeans(c, ds, m);
    }
  }

  lemma StartsAtOne(c: Config, ds: seq<Decision>)
    ensures Multiplier(c, ds, 0) == 1.0
  {
  }

  // ---------------------------------------------------------------- a constant target

  /** How far n steps towards a target lead. */
  function Walked(p: real, target: real, step: real, n: nat): real {
    if Distance(p, target) <= Reach(n, step) then target
    else if p < target then p + Reach(n, step) else p - Reach(n, step)
  }

  /**
    Once no move is too soon, a target that stays is walked to in full steps, and reached exactly from decision
    ceil(distance / step) on, whatever happened before.
  */
  lemma {:induction false} TargetReached(c: Config, ds: seq<Decision>, from: nat, target: real, n: nat)
    requires ValidConfig(c) && GoodTargets(c, ds) && from + n <= |ds|
    requires forall k :: from <= k < from + n ==> ds[k].target == target
    requires n > 0 ==> !TooSoon(c, ds, from)
    ensures Multiplier(c, ds, from + n) == Walked(Multiplier(c, ds, from), target, c.maxStepChange, n)
    ensures Multiplier(c, ds, from + n) == target <==>
      Distance(Multiplier(c, ds, from), target) <= n as real * c.maxStepChange
  {
    hide Multiplier, TooSoon;
    ReachIs(n, c.maxStepChange);
    ReachGrows(n, c.maxStepChange);
    if n > 0 {
      TargetReached(c, ds, from, target, n - 1);
      ReachGrows(n - 1, c.maxStepChange);
      var k := from + n - 1;
      DecisionIs(c, ds, k);
      if n > 1 {
        ReachGrows(n - 2, c.maxStepChange);
        TargetReached(c, ds, from, target, n - 2);
        if Multiplier(c, ds, k) != target {
          NotTooSoon(c, ds, k);
        }
      }
    }
  }

  lemma ReachGrows(n: nat, step: real)
    requires step > 0.0
    ensures Reach(n, step) >= 0.0 && Reach(n + 1, step) == Reach(n, step) + step
  {
    ReachIs(n, step);
    assert n as real * step >= 0.0;
  }

  lemma ChangedAt(c: Config, ds: seq<Decision>, i: nat, k: nat, j: nat)
    requires i < k <= |ds| && ChangedLast(c, ds, i, k) && j < k && Multiplier(c, ds, j + 1) != Multiplier(c, ds, j)
    ensures j <= i
  {
  }

  /** A move in the same direction as the one just made is never too soon. */
  lemma NotTooSoon(c: Config, ds: seq<Decision>, k: nat)
    requires 0 < k < |ds|
    requires var p, q := Multiplier(c, ds, k - 1), Multiplier(c, ds, k); (p < q && q <= ds[k].target) || (p > q && q >= ds[k].target)
    ensures !TooSoon(c, ds, k)
  {
    hide Multiplier;
    forall i | 0 <= i < k && ChangedLast(c, ds, i, k) ensures i == k - 1 {
      ChangedAt(c, ds, i, k, k - 1);
    }
  }

  /** How many moves of the run go against the move before them. */
  function Reversals(c: Config, ds: seq<Decision>): nat {
    if ds == [] then 0
    else
      var m, d := After(c, ds[..|ds| - 1]), ds[|ds| - 1];
      Reversals(c, ds[..|ds| - 1])
      + if !Holds(c, m, d) && m.lastDirection != 0 && Sign(Delta(c, m, d.target)) == -m.lastDirection then 1 else 0
  }

  /** Cooldowns that n reversals take. */
  function Cooldowns(n: nat, cooldownMs: int): int {
    if n == 0 then 0 else Cooldowns(n - 1, cooldownMs) + cooldownMs
  }

  lemma {:induction false} CooldownsIs(n: nat, cooldownMs: int)
    ensures Cooldowns(n, cooldownMs) == n * cooldownMs
  {
    if n > 0 {
      CooldownsIs(n - 1, cooldownMs);
    }
  }

  lemma {:induction false} ReversalsSpaced(c: Config, ds: seq<Decision>)
    requires ValidConfig(c) && Ordered(ds) && ds != []
    ensures After(c, ds).lastDirection == 0 ==> Reversals(c, ds) == 0
    ensures After(c, ds).lastDirection != 0 ==>
      ds[0].now + Cooldowns(Reversals(c, ds), c.cooldownMs) <= After(c, ds).lastDirectionAt <= ds[|ds| - 1].now
  {
    var front, d := ds[..|ds| - 1], ds[|ds| - 1];
    if front != [] {
      ReversalsSpaced(c, front);
      assert front[|front| - 1].now <= d.now;
    }
  }

  /** Which way each decision of a run moved the multiplier. */
  function Moves(c: Config, ds: seq<Decision>): seq<int> {
    if ds == [] then []
    else
      var front := ds[..|ds| - 1];
      Moves(c, front) + [Sign(After(c, ds).previousMultiplier - After(c, front).previousMultiplier)]
  }

  function LastNonZero(moves: seq<int>): int {
    if moves == [] then 0
    else if moves[|moves| - 1] != 0 then moves[|moves| - 1]
    else LastNonZero(moves[..|moves| - 1])
  }

  /** How often a move goes against the last move before it, standing still left out. */
  function SignChanges(moves: seq<int>): nat {
    if moves == [] then 0
    else
      var front, last := moves[..|moves| - 1], moves[|moves| - 1];
      SignChanges(front) + if last != 0 && LastNonZero(front) == -last then 1 else 0
  }

  lemma {:induction false} MovesAt(c: Config, ds: seq<Decision>, k: nat)
    requires k < |ds|
    ensures |Moves(c, ds)| == |ds| && Moves(c, ds)[k] == Move(c, ds, k)
  {
    hide After;
    var front := ds[..|ds| - 1];
    if k < |front| {
      MovesAt(c, front, k);
      MoveInPrefix(c, ds, |front|, k);
    } else {
      assert ds[..k + 1] == ds;
      if front != [] {
        MovesAt(c, front, 0);
      }
    }
  }

  /** What the memory counts are the changes of sign between the actual moves. */
  lemma {:induction false} ReversalsAreSignChanges(c: Config, ds: seq<Decision>)
    requires ValidConfig(c) && GoodTargets(c, ds)
    ensures Reversals(c, ds) == SignChanges(Moves(c, ds))
    ensures After(c, ds).lastDirection == LastNonZero(Moves(c, ds))
  {
    if ds != [] {
      var front, d := ds[..|ds| - 1], ds[|ds| - 1];
      ReversalsAreSignChanges(c, front);
      RunBounds(c, front);
      StepBounds(c, After(c, front), d);
      assert Moves(c, ds)[..|Moves(c, ds)| - 1] == Moves(c, front);
    }
  }

  /** The number of reversals is bounded by the elapsed time over the cooldown. */
  lemma ReversalsBounded(c: Config, ds: seq<Decision>)
    requires ValidConfig(c) && GoodTargets(c, ds) && Ordered(ds) && ds != []
    ensures SignChanges(Moves(c, ds)) * c.cooldownMs <= ds[|ds| - 1].now - ds[0].now
  {
    ReversalsSpaced(c, ds);
    CooldownsIs(Reversals(c, ds), c.cooldownMs);
    ReversalsAreSignChanges(c, ds);
  }

  // ---------------------------------------------------------------- buckets

  function Get(buckets: map<nat, nat>, b: int): nat { if b >= 0 && b in buckets then buckets[b] else 0 }

  function BucketOf(now: nat, bucketMs: real): nat
    requires bucketMs > 0.0
  {
    DivideMonotone(0.0, now as real, bucketMs);
    (now as real / bucketMs).Floor
  }

  function Ceil(x: real): int { -((-x).Floor) }

  /** Ten minutes of buckets are kept. */
  function Retention(bucketMs: real): int
    requires bucketMs > 0.0
  {
    Ceil(600_000.0 / bucketMs)
  }

  function Width(horizonMs: real, bucketMs: real): nat
    requires bucketMs > 0.0
  {
    if Ceil(horizonMs / bucketMs) < 1 then 1 else Ceil(horizonMs / bucketMs)
  }

  function Rate(total: nat, horizonMs: real, bucketMs: real): real
    requires bucketMs > 0.0
  {
    var seconds := Width(horizonMs, bucketMs) as real * (bucketMs / 1000.0);
    assert seconds > 0.0;
    total as real / seconds
  }

  function Total(buckets: map<nat, nat>, nowBucket: int, width: nat): nat {
    if width == 0 then 0 else Total(buckets, nowBucket, width - 1) + Get(buckets, nowBucket - (width - 1))
  }

  /** Counting one more event in a bucket and dropping the buckets older than the retention. */
  function Add(buckets: map<nat, nat>, bucket: nat, retention: int): map<nat, nat> {
    var counted := buckets[bucket := Get(buckets, bucket) + 1];
    map b | b in counted && b >= bucket - retention :: counted[b]
  }

  function AddAll(events: seq<nat>, retention: int): map<nat, nat> {
    if events == [] then map[] else Add(AddAll(events[..|events| - 1], retention), events[|events| - 1], retention)
  }

  function CountIn(events: seq<nat>, b: int): nat {
    if events == [] then 0 else CountIn(events[..|events| - 1], b) + if events[|events| - 1] == b then 1 else 0
  }

  /** The events of the whole log that fall into the last width buckets. */
  function CountRecent(events: seq<nat>, nowBucket: int, width: nat): nat {
    if events == [] then 0
    else
      CountRecent(events[..|events| - 1], nowBucket, width)
      + if nowBucket - width < events[|events| - 1] <= nowBucket then 1 else 0
  }

  ghost predicate Chronological(events: seq<nat>) {
    forall j, k :: 0 <= j <= k < |events| ==> events[j] <= events[k]
  }

  lemma {:induction false} NoneLater(events: seq<nat>, b: int)
    requires Chronological(events) && (events != [] ==> events[|events| - 1] < b)
    ensures CountIn(events, b) == 0
  {
    if events != [] {
      NoneLater(events[..|events| - 1], b);
    }
  }

  /** Within the retention the map agrees with the log, and it holds no other bucket. */
  lemma {:induction false} MapAgrees(events: seq<nat>, retention: int)
    requires Chronological(events) && events != [] && retention >= 0
    ensures forall b: int :: b >= events[|events| - 1] - retention ==>
      Get(AddAll(events, retention), b) == CountIn(events, b)
    ensures forall b: nat :: b in AddAll(events, retention) ==> events[|events| - 1] - retention <= b <= events[|events| - 1]
  {
    var front, last := events[..|events| - 1], events[|events| - 1];
    if front != [] {
      MapAgrees(front, retention);
      assert front[|front| - 1] <= last;
    }
    var before := AddAll(front, retention);
    forall b: int | b >= last - retention ensures Get(AddAll(events, retention), b) == CountIn(events, b) {
      assert Get(before, b) == CountIn(front, b);
    }
  }

  lemma {:induction false} TotalIsRecent(events: seq<nat>, retention: int, nowBucket: int, width: nat)
    requires Chronological(events) && events != [] && retention >= 0
    requires events[|events| - 1] <= nowBucket && width <= retention + 1
    ensures Total(AddAll(events, retention), nowBucket, width) == CountRecent(events, nowBucket, width)
  {
    if width == 0 {
      NoneRecent(events, nowBucket);
    } else {
      TotalIsRecent(events, retention, nowBucket, width - 1);
      MapAgrees(events, retention);
      RecentSplits(events, nowBucket, width - 1);
    }
  }

  lemma {:induction false} NoneRecent(events: seq<nat>, nowBucket: int)
    ensures CountRecent(events, nowBucket, 0) == 0
  {
    if events != [] {
      NoneRecent(events[..|events| - 1], nowBucket);
    }
  }

  lemma {:induction false} RecentSplits(events: seq<nat>, nowBucket: int, width: nat)
    ensures CountRecent(events, nowBucket, width + 1)
         == CountRecent(events, nowBucket, width) + CountIn(events, nowBucket - width)
  {
    if events != [] {
      RecentSplits(events[..|events| - 1], nowBucket, width);
    }
  }

  lemma {:induction false} RangeBounds(s: set<nat>, lo: int, hi: int)
    requires lo <= hi + 1 && forall b: nat :: b in s ==> lo <= b <= hi
    ensures |s| <= hi + 1 - lo
    decreases hi + 1 - lo
  {
    if lo <= hi {
      var rest := set b | b in s && b != hi;
      RangeBounds(rest, lo, hi - 1);
      if hi >= 0 && hi in s {
        assert s == rest + {hi};
      } else {
        assert s == rest;
      }
    } else if s != {} {
      HasMember(s);
    }
  }

  lemma HasMember(s: set<nat>)
    requires s != {}
    ensures exists b :: b in s
  {
    var b :| b in s;
  }

  /** After an event the map holds at most retention + 1 buckets. */
  lemma MapStaysSmall(events: seq<nat>, retention: int)
    requires Chronological(events) && events != [] && retention >= 0
    ensures |AddAll(events, retention)| <= retention + 1
  {
    MapAgrees(events, retention);
    var last := events[|events| - 1];
    RangeBounds(AddAll(events, retention).Keys, last - retention, last);
  }

  lemma DivideMonotone(x: real, y: real, d: real)
    requires x <= y && d > 0.0
    ensures x / d <= y / d
  {
    var qx, qy := x / d, y / d;
    if qx > qy {
      ProductMonotone(qy, qx, d);
    }
  }

  lemma ProductMonotone(a: real, b: real, d: real)
    requires a < b && d > 0.0
    ensures a * d < b * d
  {
  }

  lemma CeilMonotone(x: real, y: real)
    requires x <= y
    ensures Ceil(x) <= Ceil(y)
  {
  }

  /** The buckets of the moments at which events were recorded. */
  function BucketsOf(times: seq<nat>, bucketMs: real): (events: seq<nat>)
    requires bucketMs > 0.0
    ensures |events| == |times| && forall k :: 0 <= k < |times| ==> events[k] == BucketOf(times[k], bucketMs)
  {
    if times == [] then [] else BucketsOf(times[..|times| - 1], bucketMs) + [BucketOf(times[|times| - 1], bucketMs)]
  }

  /** How many of the moments are not before from. */
  function Since(times: seq<nat>, from: real): nat {
    if times == [] then 0 else Since(times[1..], from) + if times[0] as real >= from then 1 else 0
  }

  /** A product kept as one term. */
  function Product(x: real, y: real): real { x * y }

  lemma DivideIs(x: real, d: real)
    requires d > 0.0
    ensures Product(x / d, d) == x
  {
  }

  lemma ProductOrder(a: real, b: real, d: real)
    requires d > 0.0
    ensures a <= b ==> Product(a, d) <= Product(b, d)
    ensures a < b ==> Product(a, d) < Product(b, d)
  {
  }

  /** The start of bucket b. */
  function StartOf(b: int, bucketMs: real): real { Product(b as real, bucketMs) }

  lemma FloorIs(x: real)
    ensures x.Floor as real <= x < (x.Floor + 1) as real
  {
  }

  /** The bucket of a moment is the one it lies in. */
  lemma BucketIs(now: nat, bucketMs: real)
    requires bucketMs > 0.0
    ensures var b := BucketOf(now, bucketMs); StartOf(b, bucketMs) <= now as real < StartOf(b + 1, bucketMs)
  {
    hide Product;
    DivideIs(now as real, bucketMs);
    var q, b := now as real / bucketMs, BucketOf(now, bucketMs);
    FloorIs(q);
    ProductOrder(b as real, q, bucketMs);
    ProductOrder(q, (b + 1) as real, bucketMs);
  }

  /** A moment lies in bucket b or a later one exactly when it is not before the start of b. */
  lemma StartIs(time: nat, b: int, bucketMs: real)
    requires bucketMs > 0.0
    ensures BucketOf(time, bucketMs) >= b <==> time as real >= StartOf(b, bucketMs)
  {
    hide Product, BucketOf;
    BucketIs(time, bucketMs);
    var k := BucketOf(time, bucketMs);
    ProductOrder(b as real, k as real, bucketMs);
    ProductOrder((k + 1) as real, b as real, bucketMs);
  }

  lemma CeilIs(x: real)
    ensures (Ceil(x) - 1) as real < x <= Ceil(x) as real
  {
  }

  lemma CeilTimes(x: real, d: real)
    requires d > 0.0
    ensures StartOf(Ceil(x / d) - 1, d) < x <= StartOf(Ceil(x / d), d)
  {
    hide Ceil, Product;
    var q := x / d;
    DivideIs(x, d);
    CeilIs(q);
    ProductOrder(q, Ceil(q) as real, d);
    ProductOrder((Ceil(q) - 1) as real, q, d);
  }

  /** The number of buckets a horizon spans: the least whole number of them that covers it, and one at least. */
  lemma WidthIs(horizonMs: real, bucketMs: real)
    requires bucketMs > 0.0
    ensures var w := Width(horizonMs, bucketMs);
      && w >= 1 && horizonMs <= StartOf(w, bucketMs)
      && (w > 1 ==> StartOf(w - 1, bucketMs) < horizonMs)
  {
    hide Ceil, Product;
    CeilTimes(horizonMs, bucketMs);
    var k := Ceil(horizonMs / bucketMs);
    if k < 1 {
      ProductOrder(k as real, 1 as real, bucketMs);
    }
  }

  /** The buckets kept are the least whole number that covers ten minutes. */
  lemma RetentionIs(bucketMs: real)
    requires bucketMs > 0.0
    ensures StartOf(Retention(bucketMs) - 1, bucketMs) < 600_000.0 <= StartOf(Retention(bucketMs), bucketMs)
  {
    hide Ceil, StartOf;
    CeilTimes(600_000.0, bucketMs);
  }

  lemma {:induction false} RecentSince(times: seq<nat>, nowBucket: nat, width: nat, bucketMs: real)
    requires bucketMs > 0.0 && forall k :: 0 <= k < |times| ==> BucketOf(times[k], bucketMs) <= nowBucket
    ensures CountRecent(BucketsOf(times, bucketMs), nowBucket, width) == Since(times, StartOf(nowBucket - width + 1, bucketMs))
  {
    hide BucketOf, StartOf, Since, BucketsOf;
    if times == [] {
      NoneSince(StartOf(nowBucket - width + 1, bucketMs));
      assert BucketsOf(times, bucketMs) == [];
    } else {
      var front, last := times[..|times| - 1], times[|times| - 1];
      var from := StartOf(nowBucket - width + 1, bucketMs);
      assert times == front + [last];
      RecentSince(front, nowBucket, width, bucketMs);
      StartIs(last, nowBucket - width + 1, bucketMs);
      SinceMore(front, last, from);
      assert BucketsOf(times, bucketMs)[..|front|] == BucketsOf(front, bucketMs);
      assert BucketOf(last, bucketMs) <= nowBucket;
    }
  }

  lemma NoneSince(from: real)
    ensures Since([], from) == 0
  {
  }

  lemma {:induction false} SinceMore(times: seq<nat>, time: nat, from: real)
    ensures Since(times + [time], from) == Since(times, from) + if time as real >= from then 1 else 0
  {
    if times == [] {
      assert [] + [time] == [time] && [time][1..] == [];
    } else {
      assert (times + [time])[1..] == times[1..] + [time];
      SinceMore(times[1..], time, from);
    }
  }

  /** The length of n buckets in seconds. */
  function Seconds(n: nat, bucketMs: real): real { Product(n as real, bucketMs / 1000.0) }

  lemma RateTimes(total: nat, horizonMs: real, bucketMs: real)
    requires bucketMs > 0.0
    ensures Product(Rate(total, horizonMs, bucketMs), Seconds(Width(horizonMs, bucketMs), bucketMs)) == total as real
  {
    var seconds := Width(horizonMs, bucketMs) as real * (bucketMs / 1000.0);
    DivideIs(total as real, seconds);
  }

  /**
    For every log with a clock that never runs backwards and every horizon up to the retention, the rate read
    off the pruned map is, per second, the number of events not older than the start of the earliest of the
    buckets that the horizon spans.
  */
  lemma RateExact(times: seq<nat>, now: nat, horizonMs: real, bucketMs: real)
    requires bucketMs > 0.0 && 0.0 <= horizonMs <= 600_000.0 && times != []
    requires forall j, k :: 0 <= j <= k < |times| ==> times[j] <= times[k]
    requires times[|times| - 1] <= now
    ensures var events, nowBucket, width := BucketsOf(times, bucketMs), BucketOf(now, bucketMs), Width(horizonMs, bucketMs);
      var rate := Rate(Total(AddAll(events, Retention(bucketMs)), nowBucket, width), horizonMs, bucketMs);
      Product(rate, Seconds(width, bucketMs)) == Since(times, StartOf(nowBucket - width + 1, bucketMs)) as real
  {
    hide BucketsOf, BucketOf, Width, Retention, Rate, Total, AddAll, CountRecent, Since, StartOf, Seconds, Product;
    BucketsOrdered(times, bucketMs);
    WidthFits(horizonMs, bucketMs);
    NoneAfter(times, now, bucketMs);
    var events := BucketsOf(times, bucketMs);
    TotalIsRecent(events, Retention(bucketMs), BucketOf(now, bucketMs), Width(horizonMs, bucketMs));
    RecentSince(times, BucketOf(now, bucketMs), Width(horizonMs, bucketMs), bucketMs);
    RateTimes(CountRecent(events, BucketOf(now, bucketMs), Width(horizonMs, bucketMs)), horizonMs, bucketMs);
  }

  lemma NoneAfter(times: seq<nat>, now: nat, bucketMs: real)
    requires bucketMs > 0.0 && times != [] && times[|times| - 1] <= now
    requires forall j, k :: 0 <= j <= k < |times| ==> times[j] <= times[k]
    ensures forall k :: 0 <= k < |times| ==> BucketOf(times[k], bucketMs) <= BucketOf(now, bucketMs)
  {
    forall k | 0 <= k < |times| ensures BucketOf(times[k], bucketMs) <= BucketOf(now, bucketMs) {
      DivideMonotone(times[k] as real, now as real, bucketMs);
    }
  }

  lemma BucketsOrdered(times: seq<nat>, bucketMs: real)
    requires bucketMs > 0.0 && forall j, k :: 0 <= j <= k < |times| ==> times[j] <= times[k]
    ensures Chronological(BucketsOf(times, bucketMs))
  {
    var events := BucketsOf(times, bucketMs);
    forall j, k | 0 <= j <= k < |events| ensures events[j] <= events[k] {
      DivideMonotone(times[j] as real, times[k] as real, bucketMs);
    }
  }

  lemma WidthFits(horizonMs: real, bucketMs: real)
    requires bucketMs > 0.0 && 0.0 <= horizonMs <= 600_000.0
    ensures 0 <= Retention(bucketMs) && Width(horizonMs, bucketMs) <= Retention(bucketMs) + 1
  {
    DivideMonotone(0.0, horizonMs, bucketMs);
    DivideMonotone(horizonMs, 600_000.0, bucketMs);
    CeilMonotone(0.0, 600_000.0 / bucketMs);
    CeilMonotone(horizonMs / bucketMs, 600_000.0 / bucketMs);
  }
}
