/**
  The smoothed multiplier and the granted limits of src/quota/premium-feature-bonus.service.ts.
  Multipliers are real; the smoothing key is the pair of user and feature.
*/
module BonusAdjustment {
  import opened Wrappers
  import opened BonusPool

  type Key = (nat, nat)

  /** The next multiplier: a bounded step from the previous one towards the target. */
  function Smooth(previous: real, target: real, step: real, max: real): real {
    ClampReal(previous + ClampReal(target - previous, -step, step), 1.0, max)
  }

  class Smoother {
    var smoothing: map<Key, real>
    const maxStepPerDecision: real
    const maxTotalMultiplier: real

    constructor (step: real, max: real)
      ensures maxStepPerDecision == step && maxTotalMultiplier == max && smoothing == map[]
    {
      maxStepPerDecision, maxTotalMultiplier, smoothing := step, max, map[];
    }

    function Previous(key: Key): real
      reads this
    {
      if key in smoothing then smoothing[key] else 1.0
    }

    method ApplySmoothing(key: Key, target: real) returns (next: real)
      modifies this
      ensures next == Smooth(old(Previous(key)), target, maxStepPerDecision, maxTotalMultiplier)
      ensures key !in old(smoothing) ==> next == Smooth(1.0, target, maxStepPerDecision, maxTotalMultiplier)
      ensures smoothing == old(smoothing)[key := next]
    {
      var previous := if key in smoothing then smoothing[key] else 1.0;
      var delta := ClampReal(target - previous, -maxStepPerDecision, maxStepPerDecision);
      next := ClampReal(previous + delta, 1.0, maxTotalMultiplier);
      smoothing := smoothing[key := next];
    }
  }

  // ---------------------------------------------------------------- convergence

  /** The multiplier after n decisions with the same target. */
  function Smoothed(p: real, target: real, step: real, max: real, n: nat): real {
    if n == 0 then p else Smooth(Smoothed(p, target, step, max, n - 1), target, step, max)
  }

  /** Under a constant target the multiplier walks straight to it in full steps and then stays. */
  lemma {:induction false} Walks(p: real, target: real, step: real, max: real, n: nat)
    requires 1.0 <= p <= max && 1.0 <= target <= max && step > 0.0
    ensures Reach(n, step) >= 0.0
    ensures Smoothed(p, target, step, max, n) ==
      if Distance(p, target) <= Reach(n, step) then target
      else if p < target then p + Reach(n, step) else p - Reach(n, step)
  {
    if n > 0 {
      Walks(p, target, step, max, n - 1);
    }
  }

  /**
    The target is reached exactly from decision ceil(|target - p| / step) on; until then no decision
    overshoots it, moves by more than the step, or leaves [1, max].
  */
  lemma Converges(p: real, target: real, step: real, max: real, n: nat)
    requires 1.0 <= p <= max && 1.0 <= target <= max && step > 0.0
    ensures Smoothed(p, target, step, max, n) == target <==> Distance(p, target) <= n as real * step
    ensures Distance(Smoothed(p, target, step, max, n), Smoothed(p, target, step, max, n + 1)) <= step
    ensures 1.0 <= Smoothed(p, target, step, max, n) <= max
    ensures p <= target ==> p <= Smoothed(p, target, step, max, n) <= target
    ensures p >= target ==> target <= Smoothed(p, target, step, max, n) <= p
  {
    Walks(p, target, step, max, n);
    Walks(p, target, step, max, n + 1);
    ReachIs(n, step);
  }

  // ---------------------------------------------------------------- granted limits

  function Round(x: real): int { (x + 0.5).Floor }

  /** What an adjustment is computed from: base values, the smoothed multiplier and what active boosts add. */
  datatype Context = Context(baseLimit: int, baseBurst: int, multiplier: real, boostLimit: nat, boostBurst: nat)

  /** What a request would be granted on top of its base limit from a pool without end. */
  function Want(c: Context): nat {
    AtLeastZero(Round(c.baseLimit as real * (c.multiplier - 1.0))) + c.boostLimit
  }

  /** What is left in a pool. */
  function Left(pool: Pool): nat { AtLeastZero(pool.capacity - pool.consumed) }

  /** How much of the pool is granted on top of the base limit. */
  function Bonus(c: Context, pool: Pool): nat { Min(Want(c), Left(pool)) }

  function Limit(c: Context, pool: Pool): int { c.baseLimit + Bonus(c, pool) }

  function Burst(c: Context): int {
    var raised := Round(c.baseBurst as real * (1.0 + (c.multiplier - 1.0) * 0.6)) + c.boostBurst;
    if raised < c.baseBurst then c.baseBurst else raised
  }

  /** An adjustment handed out, to be recorded later. */
  datatype Grant = Grant(context: Context, bonus: nat)

  /**
    Adjustments and the recordings of earlier ones, in any order, as requests may overlap; and what the other
    operations do to the pool meanwhile.
  */
  datatype Event = Adjust(context: Context) | Recorded(which: nat) | Resize(capacity: int) | Reset

  datatype Serving = Serving(pool: Pool, grants: seq<Grant>)

  /** Only an adjustment that raises the limit or the burst is recorded. */
  predicate Applied(g: Grant) { g.bonus > 0 || Burst(g.context) > g.context.baseBurst }

  function RecordGrant(pool: Pool, g: Grant): Pool {
    if Applied(g) then Used(pool, g.context.baseLimit + g.bonus, g.context.baseLimit) else pool
  }

  function Serve(s: Serving, e: Event): Serving {
    match e
    case Adjust(c) => s.(grants := s.grants + [Grant(c, Bonus(c, s.pool))])
    case Recorded(k) => if k < |s.grants| then s.(pool := RecordGrant(s.pool, s.grants[k])) else s
    case Resize(capacity) => s.(pool := s.pool.(capacity := capacity))
    case Reset => s.(pool := s.pool.(held := 0, consumed := 0))
  }

  function Served(pool: Pool, events: seq<Event>): Serving {
    if events == [] then Serving(pool, []) else Serve(Served(pool, events[..|events| - 1]), events[|events| - 1])
  }

  /** The bonus that an event records. */
  function BonusRecorded(before: Serving, e: Event): nat {
    if e.Recorded? && e.which < |before.grants| then before.grants[e.which].bonus else 0
  }

  /** The bonuses recorded in a run. */
  function TotalRecorded(pool: Pool, events: seq<Event>): nat {
    if events == [] then 0
    else
      var front := events[..|events| - 1];
      TotalRecorded(pool, front) + BonusRecorded(Served(pool, front), events[|events| - 1])
  }

  function TotalGranted(grants: seq<Grant>): nat {
    if grants == [] then 0 else TotalGranted(grants[..|grants| - 1]) + grants[|grants| - 1].bonus
  }

  /** A limit lies between base and base plus what is left in the pool, and no burst drops below base. */
  lemma GrantBounds(c: Context, pool: Pool)
    ensures 0 <= Limit(c, pool) - c.baseLimit <= Left(pool)
    ensures Burst(c) >= c.baseBurst
  {
  }

  /**
    The limit is raised by what the multiplier adds to the base limit, rounded to the nearest with halves up, if
    that is positive, and by the boosts, but by no more than is left in the pool. The burst is the base burst at
    0.6 of the same rate, rounded alike, and the boosts, unless the base is higher.
  */
  lemma GrantIs(c: Context, pool: Pool) returns (n: int, k: int)
    ensures n as real - 0.5 <= c.multiplier * c.baseLimit as real - c.baseLimit as real < n as real + 0.5
    ensures Limit(c, pool) == c.baseLimit + Min(Max(n, 0) + c.boostLimit, Max(pool.capacity - pool.consumed, 0))
    ensures k as real - 0.5 <= (0.4 + 0.6 * c.multiplier) * c.baseBurst as real < k as real + 0.5
    ensures Burst(c) == Max(k + c.boostBurst, c.baseBurst)
    ensures Applied(Grant(c, Bonus(c, pool))) <==> Limit(c, pool) > c.baseLimit || Burst(c) > c.baseBurst
  {
    var rate := 1.0 + (c.multiplier - 1.0) * 0.6;
    assert rate == 0.4 + 0.6 * c.multiplier;
    n, k := Round(c.baseLimit as real * (c.multiplier - 1.0)), Round(c.baseBurst as real * rate);
  }

  /** Recording adds the bonus, cut off at the capacity; without an effect it leaves the pool as it is. */
  lemma RecordCuts(pool: Pool, g: Grant)
    ensures RecordGrant(pool, g)
         == if Applied(g) then pool.(consumed := Min(pool.capacity, pool.consumed + g.bonus)) else pool
    ensures !Applied(g) ==> g.bonus == 0
  {
  }

  // ---------------------------------------------------------------- what the pool counts

  /**
    However requests overlap, a pool of fixed capacity that has not overrun it counts as consumed all that was
    recorded, cut off at its capacity.
  */
  lemma {:induction false} PoolConsumes(pool: Pool, events: seq<Event>)
    requires pool.consumed <= pool.capacity && forall e :: e in events ==> e.Adjust? || e.Recorded?
    ensures Served(pool, events).pool == pool.(consumed := Min(pool.capacity, pool.consumed + TotalRecorded(pool, events)))
  {
    hide RecordGrant, Bonus, Applied;
    if events != [] {
      var front, e := events[..|events| - 1], events[|events| - 1];
      assert e in events;
      PoolConsumes(pool, front);
      var s := Served(pool, front);
      if e.Recorded? && e.which < |s.grants| {
        RecordCuts(s.pool, s.grants[e.which]);
      }
    }
  }

  /** Every recording with an effect finds room for its bonus. */
  predicate NeverCut(pool: Pool, events: seq<Event>) {
    events != [] ==>
      var front, e := events[..|events| - 1], events[|events| - 1];
      var s := Served(pool, front);
      && NeverCut(pool, front)
      && (e.Recorded? && e.which < |s.grants| && Applied(s.grants[e.which]) ==>
            s.pool.consumed + s.grants[e.which].bonus <= s.pool.capacity)
  }

  /**
    However capacity changes and requests overlap, until the next reset a pool counts at most what was
    recorded, and exactly that if and only if no recording was cut off.
  */
  lemma {:induction false} PoolConsumesIff(pool: Pool, events: seq<Event>)
    requires Reset !in events
    ensures Served(pool, events).pool.consumed <= pool.consumed + TotalRecorded(pool, events)
    ensures Served(pool, events).pool.consumed == pool.consumed + TotalRecorded(pool, events) <==> NeverCut(pool, events)
  {
    hide RecordGrant, Bonus, Applied;
    if events != [] {
      var front, e := events[..|events| - 1], events[|events| - 1];
      assert e in events;
      PoolConsumesIff(pool, front);
      var s := Served(pool, front);
      if e.Recorded? && e.which < |s.grants| {
        RecordCuts(s.pool, s.grants[e.which]);
      }
    }
  }

  // ---------------------------------------------------------------- requests in turn

  /** One request, with the capacity that its adjustment gives the pool. */
  datatype Turn = Turn(capacity: int, context: Context)

  /** Requests one after the other, each recorded before the next. */
  function InTurn(turns: seq<Turn>): seq<Event> {
    if turns == [] then []
    else
      var last := turns[|turns| - 1];
      InTurn(turns[..|turns| - 1]) + [Resize(last.capacity), Adjust(last.context), Recorded(|turns| - 1)]
  }

  lemma ServedMore(pool: Pool, events: seq<Event>, e: Event)
    ensures Served(pool, events + [e]) == Serve(Served(pool, events), e)
    ensures TotalRecorded(pool, events + [e]) == TotalRecorded(pool, events) + BonusRecorded(Served(pool, events), e)
  {
    assert (events + [e])[..|events + [e]| - 1] == events;
  }

  lemma ServedNone(pool: Pool)
    ensures Served(pool, []) == Serving(pool, [])
  {
  }

  lemma GrantedMore(grants: seq<Grant>, g: Grant)
    ensures TotalGranted(grants + [g]) == TotalGranted(grants) + g.bonus
  {
    assert (grants + [g])[..|grants + [g]| - 1] == grants;
  }

  /** No turn raises a burst while its capacity is below what the pool has counted. */
  predicate Covered(pool: Pool, turns: seq<Turn>) {
    turns != [] ==>
      var front, last := turns[..|turns| - 1], turns[|turns| - 1];
      && Covered(pool, front)
      && (Burst(last.context) > last.context.baseBurst ==> last.capacity >= Served(pool, InTurn(front)).pool.consumed)
  }

  /**
    Served in turn, with a capacity that changes from turn to turn, requests are granted in total exactly what
    the pool counts if and only if every turn that raises a burst has a capacity that covers what was counted.
  */
  lemma {:induction false} InTurnIff(pool: Pool, turns: seq<Turn>)
    ensures var s := Served(pool, InTurn(turns));
      && |s.grants| == |turns| && s.pool.consumed <= pool.consumed + TotalGranted(s.grants)
      && (s.pool.consumed == pool.consumed + TotalGranted(s.grants) <==> Covered(pool, turns))
  {
    hide RecordGrant, Want, Burst, Served;
    if turns == [] {
      ServedNone(pool);
    } else {
      var front, last := turns[..|turns| - 1], turns[|turns| - 1];
      InTurnIff(pool, front);
      var s := TurnServed(pool, front, last);
    }
  }

  /** What the three events of a turn do. */
  lemma ServeTurn(before: Serving, last: Turn) returns (s: Serving)
    ensures s == Serve(Serve(Serve(before, Resize(last.capacity)), Adjust(last.context)), Recorded(|before.grants|))
    ensures var g := Grant(last.context, Min(Want(last.context), AtLeastZero(last.capacity - before.pool.consumed)));
      && s.grants == before.grants + [g] && TotalGranted(s.grants) == TotalGranted(before.grants) + g.bonus
      && s.pool.capacity == last.capacity
      && s.pool.consumed == if Applied(g) then Min(last.capacity, before.pool.consumed + g.bonus) else before.pool.consumed
  {
    hide RecordGrant, Want, Burst, Applied, TotalGranted;
    s := Serve(Serve(Serve(before, Resize(last.capacity)), Adjust(last.context)), Recorded(|before.grants|));
    var g := s.grants[|before.grants|];
    GrantedMore(before.grants, g);
    RecordCuts(before.pool.(capacity := last.capacity), g);
  }

  /** The state after one more turn. */
  lemma TurnServed(pool: Pool, front: seq<Turn>, last: Turn) returns (s: Serving)
    requires |Served(pool, InTurn(front)).grants| == |front|
    ensures s == Served(pool, InTurn(front + [last]))
    ensures var before := Served(pool, InTurn(front));
      var left := AtLeastZero(last.capacity - before.pool.consumed);
      var g := Grant(last.context, Min(Want(last.context), left));
      && s.grants == before.grants + [g] && TotalGranted(s.grants) == TotalGranted(before.grants) + g.bonus
      && s.pool.capacity == last.capacity
      && s.pool.consumed == if Applied(g) then Min(last.capacity, before.pool.consumed + g.bonus) else before.pool.consumed
  {
    hide RecordGrant, Want, Burst, Served, Applied, Serve, InTurn, TotalGranted;
    var events := InTurn(front);
    InTurnMore(front, last);
    ServedMore(pool, events, Resize(last.capacity));
    ServedMore(pool, events + [Resize(last.capacity)], Adjust(last.context));
    ServedMore(pool, events + [Resize(last.capacity)] + [Adjust(last.context)], Recorded(|front|));
    s := ServeTurn(Served(pool, events), last);
  }

  lemma {:induction false} InTurnMore(front: seq<Turn>, last: Turn)
    ensures InTurn(front + [last])
         == InTurn(front) + [Resize(last.capacity)] + [Adjust(last.context)] + [Recorded(|front|)]
  {
    var turns, r, a, k := front + [last], Resize(last.capacity), Adjust(last.context), Recorded(|front|);
    assert turns[..|turns| - 1] == front;
    assert InTurn(turns) == InTurn(front) + [r, a, k];
    ThreeMore(InTurn(front), r, a, k);
  }

  lemma ThreeMore(events: seq<Event>, r: Event, a: Event, k: Event)
    ensures events + [r, a, k] == events + [r] + [a] + [k]
  {
  }

  /** With one capacity throughout that is never more than was left in the pool. */
  lemma {:induction false} InTurnExact(pool: Pool, turns: seq<Turn>)
    requires pool.consumed <= pool.capacity && forall t :: t in turns ==> t.capacity == pool.capacity
    ensures var s := Served(pool, InTurn(turns));
      && |s.grants| == |turns| && s.pool.capacity == pool.capacity
      && s.pool.consumed == pool.consumed + TotalGranted(s.grants) <= pool.capacity
  {
    hide RecordGrant, Want, Burst, Served;
    if turns == [] {
      ServedNone(pool);
    } else {
      var front, last := turns[..|turns| - 1], turns[|turns| - 1];
      assert turns == front + [last] && last in turns;
      InTurnExact(pool, front);
      var s := TurnServed(pool, front, last);
    }
  }
}
