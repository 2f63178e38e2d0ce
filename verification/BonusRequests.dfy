/**
  The guarded requests of src/common/guard/quota.guard.ts on the whole bonus service: adjustments and recordings
  for one feature among all its operations run as the events of BonusAdjustment do.
*/
module BonusRequests {
  import opened Wrappers
  import opened BonusPool
  import opened BonusAdjustment
  import G = BonusGrants

  function Consumed(pools: map<Feature, Pool>, f: Feature): int { if f in pools then pools[f].consumed else 0 }

  /** The pool of f is not lost and counts what it counted. */
  predicate Counts(before: map<Feature, Pool>, after: map<Feature, Pool>, f: Feature) {
    (f in before ==> f in after) && Consumed(after, f) == Consumed(before, f)
  }

  lemma {:induction false} ReleaseAllCounts(pools: map<Feature, Pool>, policies: map<Feature, Policy>, boosts: seq<Boost>, f: Feature)
    ensures Counts(pools, ReleaseAll(pools, policies, boosts), f)
    decreases boosts
  {
    if boosts != [] {
      ReleaseAllCounts(Release(pools, policies, boosts[0]), policies, boosts[1..], f);
    }
  }

  lemma {:induction false} EvictCounts(pools: map<Feature, Pool>, policies: map<Feature, Policy>, l: Ledger, now: int, f: Feature)
    ensures Counts(pools, EvictPools(pools, policies, l, now), f)
    decreases l
  {
    if l != [] {
      var next := ReleaseAll(pools, policies, Expired(l[0].boosts, now));
      ReleaseAllCounts(pools, policies, Expired(l[0].boosts, now), f);
      EvictCounts(next, policies, l[1..], now, f);
    }
  }

  lemma AllocateCounts(s: State, now: int, max: nat, r: Request, f: Feature)
    ensures Counts(s.pools, Allocate(s, now, max, r).0.pools, f)
  {
    hide EvictPools, EvictLedger, Lookup, Put;
    EvictCounts(s.pools, s.policies, s.ledger, now, f);
  }

  lemma {:induction false} AllocateAllCounts(s: State, now: int, max: nat, rs: seq<Request>, f: Feature)
    ensures Counts(s.pools, AllocateAll(s, now, max, rs).pools, f)
    decreases rs
  {
    hide Allocate;
    if rs != [] {
      AllocateCounts(s, now, max, rs[0], f);
      AllocateAllCounts(Allocate(s, now, max, rs[0]).0, now, max, rs[1..], f);
    }
  }

  lemma {:induction false} RevokeAllCounts(s: State, ids: seq<nat>, f: Feature)
    ensures Counts(s.pools, RevokeAll(s, ids).pools, f)
    decreases ids
  {
    if ids != [] {
      RevokeAllCounts(Revoke(s, ids[0]), ids[1..], f);
    }
  }

  /** No operation changes what a pool counts, save a recording for its feature and its reset. */
  lemma OpCounts(s: State, max: nat, op: Op, f: Feature)
    requires op.DoUse? ==> op.used != f
    ensures f in s.pools ==> f in Apply(s, max, op).pools
    ensures Consumed(Apply(s, max, op).pools, f) == if op == DoReset(f) then 0 else Consumed(s.pools, f)
  {
    hide Allocate, AllocateAll, RevokeAll, EvictPools, EvictLedger;
    match op
    case DoAllocate(now, r) => AllocateCounts(s, now, max, r, f);
    case DoBulkAllocate(now, rs) => AllocateAllCounts(s, now, max, rs, f);
    case DoBulkRevoke(ids) => RevokeAllCounts(s, ids, f);
    case DoEvict(now) => EvictCounts(s.pools, s.policies, s.ledger, now, f);
    case _ =>
  }

  // ---------------------------------------------------------------- guarded requests

  /**
    A request asks for an adjustment for f, which evicts and reads the policy; it goes on after awaiting the
    user's referral profile; later it records the adjustment. Any other operation may come in between.
  */
  datatype Act = Asks(now: int) | GoesOn(request: nat, context: Context) | Notes(which: nat) | Does(op: Op)

  /** What each request has read: the pool capacity of an enabled policy, or none; and the adjustments handed out. */
  datatype Guard = Guard(state: State, read: seq<Option<int>>, grants: seq<Grant>)

  function ReadPolicy(s: State, f: Feature): Option<int> {
    match PolicyFor(s, f)
    case Some(policy) => if policy.enabled then Some(policy.poolCapacity) else None
    case None => None
  }

  /** The capacity that request k goes on with, if it does. */
  function CapacityRead(g: Guard, k: nat): Option<int> { if k < |g.read| then g.read[k] else None }

  function Perform(g: Guard, max: nat, f: Feature, a: Act): Guard {
    match a
    case Asks(now) =>
      var t := Evict(g.state, now);
      g.(state := t, read := g.read + [ReadPolicy(t, f)])
    case GoesOn(k, c) =>
      if CapacityRead(g, k).None? then g
      else
        var pools := WithPool(g.state.pools, f, CapacityRead(g, k).value);
        g.(state := g.state.(pools := pools), grants := g.grants + [Grant(c, Bonus(c, pools[f]))])
    case Notes(k) =>
      if k < |g.grants| then
        var grant := g.grants[k];
        g.(state := Use(g.state, f, Applied(grant), grant.context.baseLimit + grant.bonus, grant.context.baseLimit))
      else g
    case Does(op) => g.(state := Apply(g.state, max, op))
  }

  function Acted(s: State, max: nat, f: Feature, acts: seq<Act>): Guard {
    if acts == [] then Guard(s, [], []) else Perform(Acted(s, max, f, acts[..|acts| - 1]), max, f, acts[|acts| - 1])
  }

  /** Asking evicts, and reads the capacity of the policy that f comes under if that is enabled. */
  lemma AsksIs(g: Guard, max: nat, f: Feature, now: int)
    ensures Perform(g, max, f, Asks(now)) ==
      Guard(Evict(g.state, now),
            g.read + [if G.Enabled(g.state, f) then Some(G.PolicyOf(g.state, f).value.poolCapacity) else None],
            g.grants)
  {
    hide EvictPools, EvictLedger;
  }

  /**
    A request that read a capacity gives the pool that capacity, bounded, and is granted what it wants, but no more
    than what the pool has not counted; one that read none is not granted anything.
  */
  lemma GoesOnIs(g: Guard, max: nat, f: Feature, k: nat, c: Context)
    ensures var h := Perform(g, max, f, GoesOn(k, c));
      if k >= |g.read| || g.read[k] == None then h == g
      else
        var capacity := G.CapacityUnder(Policy(g.read[k].value, true));
        var held, consumed := Held(g.state.pools, f), Consumed(g.state.pools, f);
        && h.state == g.state.(pools := g.state.pools[f := Pool(capacity, held, consumed)]) && h.read == g.read
        && h.grants == g.grants + [Grant(c, Min(Want(c), Max(capacity - consumed, 0)))]
  {
    hide Want;
  }

  /** A recording counts the bonus of its adjustment, up to the capacity, if that raised the limit or the burst. */
  lemma NotesIs(g: Guard, max: nat, f: Feature, k: nat)
    requires k < |g.grants| && f in g.state.pools
    ensures var grant, p, h := g.grants[k], g.state.pools[f], Perform(g, max, f, Notes(k));
      && h.read == g.read && h.grants == g.grants
      && (grant.bonus == 0 && Burst(grant.context) <= grant.context.baseBurst ==> h.state == g.state)
      && (grant.bonus > 0 || Burst(grant.context) > grant.context.baseBurst ==>
            h.state == g.state.(pools := g.state.pools[f := Pool(p.capacity, p.held, Min(p.consumed + grant.bonus, p.capacity))]))
  {
    hide Burst;
  }

  /** What a request sees of the pool of f. */
  function View(s: State, f: Feature): Pool {
    if f in s.pools then s.pools[f].(held := 0) else Pool(0, 0, 0)
  }

  /** The same step as events on that pool alone. */
  function EventsOf(g: Guard, max: nat, f: Feature, a: Act): seq<Event> {
    var after := View(Perform(g, max, f, a).state, f).capacity;
    match a
    case Asks(_) => [Resize(after)]
    case GoesOn(k, c) => [Resize(after)] + if CapacityRead(g, k).None? then [] else [Adjust(c)]
    case Notes(k) => [Recorded(k)]
    case Does(op) => [Resize(after)] + if op == DoReset(f) then [Reset] else []
  }

  function AllEvents(s: State, max: nat, f: Feature, acts: seq<Act>): seq<Event> {
    if acts == [] then []
    else
      var front := acts[..|acts| - 1];
      AllEvents(s, max, f, front) + EventsOf(Acted(s, max, f, front), max, f, acts[|acts| - 1])
  }

  /** Recordings for f come from the guard alone. */
  predicate Guarded(f: Feature, acts: seq<Act>) {
    forall a :: a in acts && a.Does? && a.op.DoUse? ==> a.op.used != f
  }

  function ServeAll(s: Serving, events: seq<Event>): Serving {
    if events == [] then s else Serve(ServeAll(s, events[..|events| - 1]), events[|events| - 1])
  }

  lemma {:induction false} ServedConcat(pool: Pool, a: seq<Event>, b: seq<Event>)
    ensures Served(pool, a + b) == ServeAll(Served(pool, a), b)
  {
    hide Serve;
    if b == [] {
      assert a + b == a;
    } else {
      var front := b[..|b| - 1];
      ServedConcat(pool, a, front);
      assert (a + b)[..|a + b| - 1] == a + front;
    }
  }

  lemma ServeTwo(s: Serving, d: Event, e: Event)
    ensures ServeAll(s, [d]) == Serve(s, d) && ServeAll(s, [d] + [e]) == Serve(Serve(s, d), e)
  {
    hide Serve;
    assert [d][..0] == [] && ([d] + [e])[..1] == [d] && [d] + [e] == [d, e];
    assert ServeAll(s, [d]) == Serve(ServeAll(s, []), d);
    assert ServeAll(s, [d] + [e]) == Serve(ServeAll(s, [d]), e);
  }

  lemma AskRefines(g: Guard, max: nat, f: Feature, now: int)
    ensures var h := Perform(g, max, f, Asks(now));
      && Serving(View(h.state, f), h.grants)
         == ServeAll(Serving(View(g.state, f), g.grants), EventsOf(g, max, f, Asks(now)))
      && h.grants == g.grants && (f in g.state.pools ==> f in h.state.pools)
  {
    hide EvictPools, EvictLedger, ServeAll, ReadPolicy;
    EvictCounts(g.state.pools, g.state.policies, g.state.ledger, now, f);
    var h, s := Perform(g, max, f, Asks(now)), Serving(View(g.state, f), g.grants);
    ServeTwo(s, Resize(View(h.state, f).capacity), Reset);
  }

  lemma GoOnRefines(g: Guard, max: nat, f: Feature, k: nat, c: Context)
    requires g.grants != [] ==> f in g.state.pools
    ensures var h := Perform(g, max, f, GoesOn(k, c));
      && Serving(View(h.state, f), h.grants)
         == ServeAll(Serving(View(g.state, f), g.grants), EventsOf(g, max, f, GoesOn(k, c)))
      && (h.grants != [] ==> f in h.state.pools)
  {
    hide Want, ServeAll, CapacityRead;
    var h, s := Perform(g, max, f, GoesOn(k, c)), Serving(View(g.state, f), g.grants);
    ServeTwo(s, Resize(View(h.state, f).capacity), Adjust(c));
    assert [Resize(View(h.state, f).capacity)] + [] == [Resize(View(h.state, f).capacity)];
  }

  lemma DoesRefines(g: Guard, max: nat, f: Feature, op: Op)
    requires op.DoUse? ==> op.used != f
    ensures var h := Perform(g, max, f, Does(op));
      && Serving(View(h.state, f), h.grants)
         == ServeAll(Serving(View(g.state, f), g.grants), EventsOf(g, max, f, Does(op)))
      && (f in g.state.pools ==> f in h.state.pools)
  {
    hide Apply, ServeAll;
    OpCounts(g.state, max, op, f);
    var h, s := Perform(g, max, f, Does(op)), Serving(View(g.state, f), g.grants);
    ServeTwo(s, Resize(View(h.state, f).capacity), Reset);
    assert [Resize(View(h.state, f).capacity)] + [] == [Resize(View(h.state, f).capacity)];
  }

  lemma NoteRefines(g: Guard, max: nat, f: Feature, k: nat)
    requires g.grants != [] ==> f in g.state.pools
    ensures var h := Perform(g, max, f, Notes(k));
      && Serving(View(h.state, f), h.grants)
         == ServeAll(Serving(View(g.state, f), g.grants), EventsOf(g, max, f, Notes(k)))
      && (g.grants != [] ==> f in h.state.pools)
  {
    hide Applied, ServeAll;
    ServeTwo(Serving(View(g.state, f), g.grants), Recorded(k), Reset);
  }

  /**
    In every run of the service, whatever its other operations do, the pool of a feature counts and the guard
    grants exactly what the run's events on that pool alone count and grant.
  */
  lemma {:induction false} GuardRefines(s: State, max: nat, f: Feature, acts: seq<Act>)
    requires Guarded(f, acts)
    ensures var g := Acted(s, max, f, acts);
      && Served(View(s, f), AllEvents(s, max, f, acts)) == Serving(View(g.state, f), g.grants)
      && (g.grants != [] ==> f in g.state.pools)
  {
    hide Perform, Serve, EventsOf, Apply;
    if acts != [] {
      var front, a := acts[..|acts| - 1], acts[|acts| - 1];
      assert a in acts;
      GuardRefines(s, max, f, front);
      var g := Acted(s, max, f, front);
      ServedConcat(View(s, f), AllEvents(s, max, f, front), EventsOf(g, max, f, a));
      StepRefines(g, max, f, a);
    }
  }

  lemma StepRefines(g: Guard, max: nat, f: Feature, a: Act)
    requires (a.Does? && a.op.DoUse? ==> a.op.used != f) && (g.grants != [] ==> f in g.state.pools)
    ensures var h := Perform(g, max, f, a);
      && Serving(View(h.state, f), h.grants) == ServeAll(Serving(View(g.state, f), g.grants), EventsOf(g, max, f, a))
      && (h.grants != [] ==> f in h.state.pools)
  {
    hide ServeAll, Perform, EventsOf, Apply;
    match a
    case Asks(now) => AskRefines(g, max, f, now);
    case GoesOn(k, c) => GoOnRefines(g, max, f, k, c);
    case Notes(k) =>
      NoteRefines(g, max, f, k);
      NoteGrants(g, max, f, k);
    case Does(op) =>
      DoesRefines(g, max, f, op);
      DoesGrants(g, max, f, op);
  }

  lemma NoteGrants(g: Guard, max: nat, f: Feature, k: nat)
    ensures Perform(g, max, f, Notes(k)).grants == g.grants
  {
  }

  lemma DoesGrants(g: Guard, max: nat, f: Feature, op: Op)
    ensures Perform(g, max, f, Does(op)).grants == g.grants
  {
    hide Apply;
  }
}
