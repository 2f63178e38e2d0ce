/**
  When overlapping requests are together granted more than a pool has left: the guard of src/common/guard/quota.guard.ts
  awaits between getAdjustment and recordUsage of src/quota/premium-feature-bonus.service.ts.
*/
module BonusOverlap {
  import opened Wrappers
  import opened BonusPool
  import opened BonusAdjustment

  // ---------------------------------------------------------------- all adjusted before any is recorded

  function Adjusts(contexts: seq<Context>): seq<Event> {
    if contexts == [] then [] else Adjusts(contexts[..|contexts| - 1]) + [Adjust(contexts[|contexts| - 1])]
  }

  function SumWant(contexts: seq<Context>): nat {
    if contexts == [] then 0 else SumWant(contexts[..|contexts| - 1]) + Want(contexts[|contexts| - 1])
  }

  function SumBonus(contexts: seq<Context>, pool: Pool): nat {
    if contexts == [] then 0 else SumBonus(contexts[..|contexts| - 1], pool) + Bonus(contexts[|contexts| - 1], pool)
  }

  /** How many of the requests want anything. */
  function Wanting(contexts: seq<Context>): nat {
    if contexts == [] then 0
    else Wanting(contexts[..|contexts| - 1]) + if Want(contexts[|contexts| - 1]) > 0 then 1 else 0
  }

  lemma {:induction false} AdjustsGrant(pool: Pool, contexts: seq<Context>)
    ensures Served(pool, Adjusts(contexts)).pool == pool
    ensures TotalGranted(Served(pool, Adjusts(contexts)).grants) == SumBonus(contexts, pool)
  {
    hide Bonus;
    if contexts != [] {
      var front, c := contexts[..|contexts| - 1], contexts[|contexts| - 1];
      AdjustsGrant(pool, front);
      ServedMore(pool, Adjusts(front), Adjust(c));
      GrantedMore(Served(pool, Adjusts(front)).grants, Grant(c, Bonus(c, pool)));
    }
  }

  /** How the sums compare: wants that fit are granted in full, a single want up to what is left. */
  lemma {:induction false} SumsCompare(contexts: seq<Context>, pool: Pool)
    requires Left(pool) > 0
    ensures SumBonus(contexts, pool) <= SumWant(contexts) && Wanting(contexts) <= SumBonus(contexts, pool)
    ensures Wanting(contexts) == 0 <==> SumWant(contexts) == 0
    ensures SumWant(contexts) <= Left(pool) ==> SumBonus(contexts, pool) == SumWant(contexts)
    ensures Wanting(contexts) <= 1 ==> SumBonus(contexts, pool) == Min(SumWant(contexts), Left(pool))
    ensures Wanting(contexts) > 1 && SumWant(contexts) > Left(pool) ==> SumBonus(contexts, pool) > Left(pool)
  {
    hide Want, Left;
    if contexts != [] {
      SumsCompare(contexts[..|contexts| - 1], pool);
    }
  }

  lemma {:induction false} NothingGranted(contexts: seq<Context>, pool: Pool)
    requires Left(pool) == 0
    ensures SumBonus(contexts, pool) == 0
  {
    hide Want, Left;
    if contexts != [] {
      NothingGranted(contexts[..|contexts| - 1], pool);
    }
  }

  /**
    Requests that are all adjusted before any is recorded are together granted at most what is left if and
    only if nothing is left, they want no more than that, or at most one of them wants anything.
  */
  lemma OverlapIff(pool: Pool, contexts: seq<Context>)
    ensures TotalGranted(Served(pool, Adjusts(contexts)).grants) <= Left(pool) <==>
      Left(pool) == 0 || SumWant(contexts) <= Left(pool) || Wanting(contexts) <= 1
  {
    AdjustsGrant(pool, contexts);
    if Left(pool) == 0 {
      NothingGranted(contexts, pool);
    } else {
      SumsCompare(contexts, pool);
    }
  }

  // ---------------------------------------------------------------- every way to overlap

  function Adjustments(events: seq<Event>): nat {
    if events == [] then 0 else Adjustments(events[..|events| - 1]) + if events[|events| - 1].Adjust? then 1 else 0
  }

  /** Each adjustment is recorded at most once, after it was made. */
  ghost predicate Once(events: seq<Event>) {
    events != [] ==>
      var front, e := events[..|events| - 1], events[|events| - 1];
      Once(front) && (e.Recorded? ==> e.which < Adjustments(front) && e !in front)
  }

  /** The bonuses handed out and not yet recorded. */
  function Unrecorded(grants: seq<Grant>, events: seq<Event>): nat {
    if grants == [] then 0
    else
      var k := |grants| - 1;
      Unrecorded(grants[..k], events) + if Recorded(k) in events then 0 else grants[k].bonus
  }

  function Outstanding(pool: Pool, events: seq<Event>): nat { Unrecorded(Served(pool, events).grants, events) }

  /** What the pool counts and what is still to be counted exceed its capacity. */
  predicate Overrun(pool: Pool, events: seq<Event>) {
    Served(pool, events).pool.consumed + Outstanding(pool, events) > Served(pool, events).pool.capacity
  }

  /** No prefix of the run overruns. */
  predicate NeverOverruns(pool: Pool, events: seq<Event>) {
    !Overrun(pool, events) && (events != [] ==> NeverOverruns(pool, events[..|events| - 1]))
  }

  /**
    An adjustment wants no more than what is left less what is outstanding, or nothing is outstanding; a new
    capacity covers what is counted and outstanding.
  */
  predicate Fits(pool: Pool, front: seq<Event>, e: Event) {
    var s, out := Served(pool, front), Outstanding(pool, front);
    match e
    case Adjust(c) => out == 0 || Want(c) + out <= Left(s.pool)
    case Recorded(_) => true
    case Resize(capacity) => s.pool.consumed + out <= capacity
    case Reset => true
  }

  predicate AllFit(pool: Pool, events: seq<Event>) {
    events != [] ==> AllFit(pool, events[..|events| - 1]) && Fits(pool, events[..|events| - 1], events[|events| - 1])
  }

  lemma {:induction false} UnrecordedSame(grants: seq<Grant>, events: seq<Event>, e: Event)
    requires e.Recorded? ==> e.which >= |grants|
    ensures Unrecorded(grants, events + [e]) == Unrecorded(grants, events)
  {
    if grants != [] {
      UnrecordedSame(grants[..|grants| - 1], events, e);
    }
  }

  lemma {:induction false} UnrecordedLess(grants: seq<Grant>, events: seq<Event>, k: nat)
    requires k < |grants| && Recorded(k) !in events
    ensures Unrecorded(grants, events + [Recorded(k)]) == Unrecorded(grants, events) - grants[k].bonus
  {
    var last := |grants| - 1;
    if k == last {
      UnrecordedSame(grants[..last], events, Recorded(k));
    } else {
      UnrecordedLess(grants[..last], events, k);
    }
  }

  lemma {:induction false} GrantsCount(pool: Pool, events: seq<Event>)
    requires Once(events)
    ensures |Served(pool, events).grants| == Adjustments(events)
    ensures forall k: nat :: Recorded(k) in events ==> k < Adjustments(events)
  {
    hide RecordGrant, Bonus, Served;
    if events != [] {
      var front := events[..|events| - 1];
      GrantsCount(pool, front);
      assert events == front + [events[|events| - 1]];
      ServedMore(pool, front, events[|events| - 1]);
    } else {
      ServedNone(pool);
    }
  }

  lemma UnrecordedMore(grants: seq<Grant>, g: Grant, events: seq<Event>)
    requires Recorded(|grants|) !in events
    ensures Unrecorded(grants + [g], events) == Unrecorded(grants, events) + g.bonus
  {
    assert (grants + [g])[..|grants|] == grants;
  }

  /** What is outstanding after one more event. */
  lemma OutstandingStep(pool: Pool, front: seq<Event>, e: Event)
    requires Once(front + [e])
    ensures var s, t := Served(pool, front), Served(pool, front + [e]);
      && t == Serve(s, e)
      && (e.Recorded? ==> e.which < |s.grants| && s.grants[e.which].bonus <= Outstanding(pool, front))
      && Outstanding(pool, front + [e])
         == Outstanding(pool, front) + (if e.Adjust? then Bonus(e.context, s.pool) else 0) - BonusRecorded(s, e)
  {
    hide RecordGrant, Bonus, Unrecorded, Served;
    var events, s := front + [e], Served(pool, front);
    assert events[..|events| - 1] == front;
    ServedMore(pool, front, e);
    GrantsCount(pool, front);
    match e
    case Adjust(c) =>
      UnrecordedSame(s.grants, front, e);
      UnrecordedMore(s.grants, Grant(c, Bonus(c, s.pool)), events);
    case Recorded(k) => UnrecordedLess(s.grants, front, k);
    case Resize(_) => UnrecordedSame(s.grants, front, e);
    case Reset => UnrecordedSame(s.grants, front, e);
  }

  /** From a state that has not overrun, a step overruns exactly when it does not fit. */
  lemma StepOverruns(pool: Pool, front: seq<Event>, e: Event)
    requires Once(front + [e]) && !Overrun(pool, front) && Served(pool, front).pool.consumed >= 0
    ensures Overrun(pool, front + [e]) <==> !Fits(pool, front, e)
    ensures !Overrun(pool, front + [e]) ==> Served(pool, front + [e]).pool.consumed >= 0
    ensures e.Recorded? ==>
      Served(pool, front + [e]).pool.consumed == Served(pool, front).pool.consumed + BonusRecorded(Served(pool, front), e)
  {
    hide RecordGrant, Want, Unrecorded, Served, Outstanding, Applied;
    var s := Served(pool, front);
    OutstandingStep(pool, front, e);
    if e.Recorded? {
      RecordCuts(s.pool, s.grants[e.which]);
    }
  }

  /**
    The exact condition over every run, with requests that overlap in any way, capacities that change and
    resets: no prefix overruns if and only if every event fits when it happens.
  */
  lemma {:induction false} OverrunIff(pool: Pool, events: seq<Event>)
    requires Once(events) && 0 <= pool.consumed <= pool.capacity
    ensures NeverOverruns(pool, events) <==> AllFit(pool, events)
    ensures NeverOverruns(pool, events) ==> Served(pool, events).pool.consumed >= 0
  {
    hide Overrun, Fits, Served;
    if events == [] {
      NothingOverruns(pool);
    } else {
      var front, e := events[..|events| - 1], events[|events| - 1];
      OverrunIff(pool, front);
      assert front + [e] == events;
      if NeverOverruns(pool, front) {
        StepOverruns(pool, front, e);
      }
    }
  }

  lemma NothingOverruns(pool: Pool)
    ensures Served(pool, []) == Serving(pool, []) && Outstanding(pool, []) == 0
    ensures Overrun(pool, []) <==> pool.consumed > pool.capacity
  {
  }

  /** The grants and the count after one more event that is no reset. */
  lemma GrantsStep(pool: Pool, front: seq<Event>, e: Event)
    requires Once(front + [e]) && e != Reset && !Overrun(pool, front) && Served(pool, front).pool.consumed >= 0
    requires !Overrun(pool, front + [e])
    ensures Served(pool, front + [e]).pool.consumed >= 0
    ensures var s, t := Served(pool, front), Served(pool, front + [e]);
      t.pool.consumed + Outstanding(pool, front + [e]) - s.pool.consumed - Outstanding(pool, front)
      == TotalGranted(t.grants) - TotalGranted(s.grants)
  {
    hide RecordGrant, Want, Burst, Served, Outstanding, Bonus, Fits, Once, Overrun;
    StepOverruns(pool, front, e);
    OutstandingStep(pool, front, e);
    if e.Adjust? {
      GrantedMore(Served(pool, front).grants, Grant(e.context, Bonus(e.context, Served(pool, front).pool)));
    }
  }

  /** A run without a reset that never overruns has granted exactly what it added to the count and what is outstanding. */
  lemma {:induction false} GrantedAll(pool: Pool, events: seq<Event>)
    requires Once(events) && 0 <= pool.consumed && NeverOverruns(pool, events) && Reset !in events
    ensures var s := Served(pool, events);
      && pool.consumed + TotalGranted(s.grants) == s.pool.consumed + Outstanding(pool, events)
      && s.pool.consumed >= 0
  {
    hide Served, Outstanding, Overrun;
    if events == [] {
      NothingOverruns(pool);
    } else {
      var front, e := events[..|events| - 1], events[|events| - 1];
      assert front + [e] == events && e in events;
      GrantedAll(pool, front);
      GrantsStep(pool, front, e);
    }
  }

  /** Two requests that each want all that is left both get it, and the pool counts it once. */
  lemma OverlapOverruns(pool: Pool, c: Context)
    requires pool.consumed < pool.capacity && Bonus(c, pool) == pool.capacity - pool.consumed
    ensures var s := Served(pool, [Adjust(c), Adjust(c), Recorded(0), Recorded(1)]);
      s.pool.consumed == pool.capacity && TotalGranted(s.grants) == 2 * (pool.capacity - pool.consumed)
  {
    hide RecordGrant, Bonus, Applied, Served;
    var g := Grant(c, Bonus(c, pool));
    var a, r := Adjust(c), Recorded(0);
    ServedNone(pool);
    ServedMore(pool, [], a);
    ServedMore(pool, [] + [a], a);
    ServedMore(pool, [] + [a] + [a], r);
    ServedMore(pool, [] + [a] + [a] + [r], Recorded(1));
    assert [] + [a] + [a] + [r] + [Recorded(1)] == [a, a, r, Recorded(1)];
    RecordCuts(pool, g);
    RecordCuts(RecordGrant(pool, g), g);
    GrantedMore([], g);
    GrantedMore([g], g);
    assert [] + [g] == [g] && [g] + [g] == [g, g];
  }
}
