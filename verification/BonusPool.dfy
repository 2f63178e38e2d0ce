/**
  The premium bonus allocator of src/quota/premium-feature-bonus.service.ts: boosts reserve units of
  a feature's pool, and every operation that drops a boost gives its units back.

  The map of boosts by user is an association list in insertion order, as JavaScript iterates it.
  Features and users are only compared; features 0 to 3 are "default", "compute", "portfolio" and "referral".
  Boost ids come from outside.
*/
module BonusPool {
  import opened Wrappers

  type Feature = nat
  type User = nat

  const Default: Feature := 0

  /** The features that have a policy from the start, with the capacities of their pools. */
  const Defaults: seq<(Feature, int)> := [(Default, 120_000), (1, 250_000), (2, 150_000), (3, 80_000)]

  datatype Policy = Policy(poolCapacity: int, enabled: bool)

  datatype Boost = Boost(id: nat, feature: Feature, extraLimit: nat, expiresAt: int)

  /** A feature's pool; held is the source's pool.allocated, a reserved word here. */
  datatype Pool = Pool(capacity: int, held: int, consumed: int)

  datatype Entry = Entry(user: User, boosts: seq<Boost>)

  type Ledger = seq<Entry>

  datatype State = State(policies: map<Feature, Policy>, ledger: Ledger, pools: map<Feature, Pool>)

  /** What a caller of allocateBoost asks for; the id is what the service draws for the new boost. */
  datatype Request = Request(id: nat, user: User, feature: Feature, extraLimit: int, durationMinutes: int)

  datatype Outcome = Granted(boost: Boost) | PolicyDisabled | TooManyBoosts | PoolExhausted

  function Clamp(v: int, lo: int, hi: int): int {
    if v < lo then (if lo < hi then lo else hi) else if v < hi then v else hi
  }

  function AtLeastZero(v: int): int { if v < 0 then 0 else v }

  // ---------------------------------------------------------------- pools

  /** The pools once the pool of f exists with the given capacity. */
  function WithPool(pools: map<Feature, Pool>, f: Feature, capacity: int): map<Feature, Pool> {
    var c := Clamp(capacity, 100, 10_000_000);
    pools[f := if f in pools then pools[f].(capacity := c) else Pool(c, 0, 0)]
  }

  function CapacityOf(policies: map<Feature, Policy>, f: Feature): int {
    if f in policies then policies[f].poolCapacity else 20_000
  }

  function Release(pools: map<Feature, Pool>, policies: map<Feature, Policy>, b: Boost): map<Feature, Pool> {
    var ps := WithPool(pools, b.feature, CapacityOf(policies, b.feature));
    ps[b.feature := ps[b.feature].(held := AtLeastZero(ps[b.feature].held - b.extraLimit))]
  }

  function ReleaseAll(pools: map<Feature, Pool>, policies: map<Feature, Policy>, boosts: seq<Boost>): map<Feature, Pool>
    decreases boosts
  {
    if boosts == [] then pools else ReleaseAll(Release(pools, policies, boosts[0]), policies, boosts[1..])
  }

  // ---------------------------------------------------------------- the ledger

  function Lookup(l: Ledger, u: User): seq<Boost> {
    if l == [] then [] else if l[0].user == u then l[0].boosts else Lookup(l[1..], u)
  }

  /** boostsByUser.set: in place for a known user, at the end for a new one. */
  function Put(l: Ledger, u: User, boosts: seq<Boost>): Ledger {
    if l == [] then [Entry(u, boosts)]
    else if l[0].user == u then [Entry(u, boosts)] + l[1..]
    else [l[0]] + Put(l[1..], u, boosts)
  }

  function Active(boosts: seq<Boost>, now: int): seq<Boost> {
    if boosts == [] then []
    else (if boosts[0].expiresAt > now then [boosts[0]] else []) + Active(boosts[1..], now)
  }

  function Expired(boosts: seq<Boost>, now: int): seq<Boost> {
    if boosts == [] then []
    else (if boosts[0].expiresAt <= now then [boosts[0]] else []) + Expired(boosts[1..], now)
  }

  function EvictLedger(l: Ledger, now: int): Ledger {
    if l == [] then []
    else
      var active := Active(l[0].boosts, now);
      (if active == [] && l[0].boosts != [] then [] else [l[0].(boosts := active)]) + EvictLedger(l[1..], now)
  }

  function EvictPools(pools: map<Feature, Pool>, policies: map<Feature, Policy>, l: Ledger, now: int): map<Feature, Pool>
    decreases l
  {
    if l == [] then pools
    else EvictPools(ReleaseAll(pools, policies, Expired(l[0].boosts, now)), policies, l[1..], now)
  }

  /** The place of the boost with this id, or the length. */
  function FindBoost(boosts: seq<Boost>, id: nat): (k: nat)
    ensures k <= |boosts| && (k < |boosts| ==> boosts[k].id == id)
    ensures forall j :: 0 <= j < k ==> boosts[j].id != id
  {
    if boosts == [] || boosts[0].id == id then 0 else 1 + FindBoost(boosts[1..], id)
  }

  function FindEntry(l: Ledger, id: nat): (k: nat)
    ensures k <= |l| && (k < |l| ==> FindBoost(l[k].boosts, id) < |l[k].boosts|)
    ensures forall j :: 0 <= j < k ==> FindBoost(l[j].boosts, id) == |l[j].boosts|
  {
    if l == [] || FindBoost(l[0].boosts, id) < |l[0].boosts| then 0 else 1 + FindEntry(l[1..], id)
  }

  // ---------------------------------------------------------------- the operations

  function Evict(s: State, now: int): State {
    s.(ledger := EvictLedger(s.ledger, now), pools := EvictPools(s.pools, s.policies, s.ledger, now))
  }

  function PolicyFor(s: State, f: Feature): Option<Policy> {
    if f in s.policies then Some(s.policies[f])
    else if Default in s.policies then Some(s.policies[Default])
    else None
  }

  function NewBoost(r: Request, now: int): Boost {
    Boost(r.id, r.feature, Clamp(r.extraLimit, 0, 500_000), now + Clamp(r.durationMinutes, 1, 60 * 24 * 30) * 60_000)
  }

  /** Expired boosts go first; a refused request may still have refreshed the pool's capacity. */
  function Allocate(s: State, now: int, max: nat, r: Request): (State, Outcome) {
    var t := Evict(s, now);
    var policy := PolicyFor(t, r.feature);
    if policy.None? || !policy.value.enabled then (t, PolicyDisabled)
    else if |Lookup(t.ledger, r.user)| >= max then (t, TooManyBoosts)
    else
      var boost := NewBoost(r, now);
      var pools := WithPool(t.pools, r.feature, policy.value.poolCapacity);
      var pool := pools[r.feature];
      if pool.held + boost.extraLimit > pool.capacity then (t.(pools := pools), PoolExhausted)
      else
        (t.(pools := pools[r.feature := pool.(held := pool.held + boost.extraLimit)],
            ledger := Put(t.ledger, r.user, Lookup(t.ledger, r.user) + [boost])),
         Granted(boost))
  }

  function Without(boosts: seq<Boost>, k: nat): seq<Boost>
    requires k < |boosts|
  {
    boosts[..k] + boosts[k + 1..]
  }

  function Revoke(s: State, id: nat): State {
    var k := FindEntry(s.ledger, id);
    if k == |s.ledger| then s
    else
      var e := s.ledger[k];
      var i := FindBoost(e.boosts, id);
      var left := Without(e.boosts, i);
      s.(pools := Release(s.pools, s.policies, e.boosts[i]),
         ledger := s.ledger[..k] + (if left == [] then [] else [e.(boosts := left)]) + s.ledger[k + 1..])
  }

  function Upsert(s: State, f: Feature, capacity: int, enabled: bool): State {
    var policy := Policy(Clamp(capacity, 100, 10_000_000), enabled);
    s.(policies := s.policies[f := policy], pools := WithPool(s.pools, f, policy.poolCapacity))
  }

  function ResetPool(s: State, f: Feature): State {
    var pools := WithPool(s.pools, f, CapacityOf(s.policies, f));
    s.(pools := pools[f := pools[f].(held := 0, consumed := 0)])
  }

  /** Consumption is counted against a pool that exists, up to its capacity. */
  function Use(s: State, f: Feature, bonusApplied: bool, effective: int, base: int): State {
    if f !in s.pools || !bonusApplied then s
    else
      s.(pools := s.pools[f := Used(s.pools[f], effective, base)])
  }

  function Used(p: Pool, effective: int, base: int): Pool {
    var used := p.consumed + AtLeastZero(effective - base);
    p.(consumed := if used < p.capacity then used else p.capacity)
  }

  function AllocateAll(s: State, now: int, max: nat, rs: seq<Request>): State
    decreases rs
  {
    if rs == [] then s else AllocateAll(Allocate(s, now, max, rs[0]).0, now, max, rs[1..])
  }

  /** How many of the requests were granted. */
  function Successes(s: State, now: int, max: nat, rs: seq<Request>): nat
    decreases rs
  {
    if rs == [] then 0
    else
      var (t, outcome) := Allocate(s, now, max, rs[0]);
      (if outcome.Granted? then 1 else 0) + Successes(t, now, max, rs[1..])
  }

  function RevokeAll(s: State, ids: seq<nat>): State
    decreases ids
  {
    if ids == [] then s else RevokeAll(Revoke(s, ids[0]), ids[1..])
  }

  /** The state once the first n default policies are seeded. */
  function Seeded(n: nat): State
    requires n <= |Defaults|
  {
    if n == 0 then State(map[], [], map[])
    else
      var s, (feature, capacity) := Seeded(n - 1), Defaults[n - 1];
      s.(policies := s.policies[feature := Policy(capacity, true)], pools := WithPool(s.pools, feature, capacity))
  }

  /** A new service has no boosts, and an enabled policy and an unused pool for each default feature and no other. */
  lemma {:induction false} SeededStart(n: nat, f: Feature)
    requires n <= |Defaults|
    ensures var s := Seeded(n);
      && s.ledger == [] && (f in s.policies <==> f in s.pools) && (f in s.policies <==> f < n)
      && (f < n ==> s.policies[f] == Policy(Defaults[f].1, true) && s.pools[f] == Pool(Defaults[f].1, 0, 0))
  {
    if n > 0 {
      SeededStart(n - 1, f);
      assert Defaults[n - 1].0 == n - 1 && 100 <= Defaults[n - 1].1 <= 10_000_000;
    }
  }

  // ---------------------------------------------------------------- the service

  class BonusService {
    var policies: map<Feature, Policy>
    var boostsByUser: Ledger
    var pools: map<Feature, Pool>
    const maxActiveBoostsPerUser: nat

    ghost function Now(): State
      reads this
    {
      State(policies, boostsByUser, pools)
    }

    constructor (max: nat)
      ensures maxActiveBoostsPerUser == max && Now() == Seeded(|Defaults|)
    {
      maxActiveBoostsPerUser := max;
      policies, boostsByUser, pools := map[], [], map[];
      new;
      for k := 0 to |Defaults|
        invariant Now() == Seeded(k)
      {
        var (feature, capacity) := Defaults[k];
        policies := policies[feature := Policy(capacity, true)];
        GetOrCreatePool(feature, capacity);
      }
    }

    method GetOrCreatePool(feature: Feature, capacity: int)
      modifies this`pools
      ensures pools == WithPool(old(pools), feature, capacity)
    {
      var c := Clamp(capacity, 100, 10_000_000);
      if feature in pools {
        pools := pools[feature := pools[feature].(capacity := c)];
      } else {
        pools := pools[feature := Pool(c, 0, 0)];
      }
    }

    method GiveBack(entry: Boost)
      modifies this`pools
      ensures pools == Release(old(pools), policies, entry)
    {
      GetOrCreatePool(entry.feature, CapacityOf(policies, entry.feature));
      var pool := pools[entry.feature];
      pools := pools[entry.feature := pool.(held := AtLeastZero(pool.held - entry.extraLimit))];
    }

    method GiveBackAll(expired: seq<Boost>)
      modifies this`pools
      ensures pools == ReleaseAll(old(pools), policies, expired)
    {
      for k := 0 to |expired|
        invariant ReleaseAll(pools, policies, expired[k..]) == ReleaseAll(old(pools), policies, expired)
      {
        assert expired[k..][1..] == expired[k + 1..];
        GiveBack(expired[k]);
      }
    }

    method EvictExpiredBoosts(now: int)
      modifies this`pools, this`boostsByUser
      ensures Now() == Evict(old(Now()), now)
    {
      hide Active, Expired, EvictLedger, EvictPools, ReleaseAll;
      var entries := boostsByUser;
      var kept: Ledger := [];
      assert entries[0..] == entries;
      for k := 0 to |entries|
        invariant kept + EvictLedger(entries[k..], now) == EvictLedger(entries, now)
        invariant EvictPools(pools, policies, entries[k..], now) == EvictPools(old(pools), policies, entries, now)
      {
        assert entries[k..][0] == entries[k] && entries[k..][1..] == entries[k + 1..];
        EvictFirst(pools, policies, entries[k..], now);
        var active := Active(entries[k].boosts, now);
        NothingExpired(entries[k].boosts, now);
        if |active| != |entries[k].boosts| {
          GiveBackAll(Expired(entries[k].boosts, now));
        }
        if active != [] || entries[k].boosts == [] {
          kept := kept + [entries[k].(boosts := active)];
        }
      }
      EvictNone(pools, policies, now);
      assert entries[|entries|..] == [] && kept + [] == kept;
      boostsByUser := kept;
    }

    method AllocateBoost(now: int, r: Request) returns (outcome: Outcome)
      modifies this`pools, this`boostsByUser
      ensures (Now(), outcome) == Allocate(old(Now()), now, maxActiveBoostsPerUser, r)
    {
      EvictExpiredBoosts(now);
      hide Evict;
      var policy := if r.feature in policies then Some(policies[r.feature])
                    else if Default in policies then Some(policies[Default]) else None;
      if policy.None? || !policy.value.enabled {
        return PolicyDisabled;
      }
      var existing := Lookup(boostsByUser, r.user);
      if |existing| >= maxActiveBoostsPerUser {
        return TooManyBoosts;
      }
      var boost := NewBoost(r, now);
      GetOrCreatePool(r.feature, policy.value.poolCapacity);
      var pool := pools[r.feature];
      if pool.held + boost.extraLimit > pool.capacity {
        return PoolExhausted;
      }
      pools := pools[r.feature := pool.(held := pool.held + boost.extraLimit)];
      boostsByUser := Put(boostsByUser, r.user, existing + [boost]);
      outcome := Granted(boost);
    }

    method RevokeBoost(boostId: nat) returns (removed: bool)
      modifies this`pools, this`boostsByUser
      ensures Now() == Revoke(old(Now()), boostId)
      ensures removed <==> FindEntry(old(boostsByUser), boostId) < |old(boostsByUser)|
    {
      for k := 0 to |boostsByUser|
        invariant boostsByUser == old(boostsByUser) && pools == old(pools)
        invariant forall j :: 0 <= j < k ==> FindBoost(boostsByUser[j].boosts, boostId) == |boostsByUser[j].boosts|
      {
        var e := boostsByUser[k];
        var index := FindBoost(e.boosts, boostId);
        if index < |e.boosts| {
          assert FindEntry(boostsByUser, boostId) == k;
          var left := Without(e.boosts, index);
          GiveBack(e.boosts[index]);
          boostsByUser := boostsByUser[..k] + (if left == [] then [] else [e.(boosts := left)]) + boostsByUser[k + 1..];
          return true;
        }
      }
      removed := false;
    }

    method UpsertPolicy(feature: Feature, capacity: int, enabled: bool)
      modifies this`pools, this`policies
      ensures Now() == Upsert(old(Now()), feature, capacity, enabled)
    {
      var next := Policy(Clamp(capacity, 100, 10_000_000), enabled);
      policies := policies[feature := next];
      GetOrCreatePool(feature, next.poolCapacity);
    }

    method ResetFeaturePool(feature: Feature)
      modifies this`pools
      ensures Now() == ResetPool(old(Now()), feature)
    {
      GetOrCreatePool(feature, CapacityOf(policies, feature));
      pools := pools[feature := pools[feature].(held := 0, consumed := 0)];
    }

    /** The part of recordUsage that touches the pool. */
    method RecordUsage(feature: Feature, bonusApplied: bool, effectiveLimit: int, baseLimit: int)
      modifies this`pools
      ensures Now() == Use(old(Now()), feature, bonusApplied, effectiveLimit, baseLimit)
    {
      if feature in pools && bonusApplied {
        var pool := pools[feature];
        var used := pool.consumed + AtLeastZero(effectiveLimit - baseLimit);
        pools := pools[feature := pool.(consumed := if used < pool.capacity then used else pool.capacity)];
      }
    }

    method BulkAllocateBoosts(now: int, items: seq<Request>) returns (succeeded: nat)
      modifies this`pools, this`boostsByUser
      ensures Now() == AllocateAll(old(Now()), now, maxActiveBoostsPerUser, items)
      ensures succeeded == Successes(old(Now()), now, maxActiveBoostsPerUser, items)
    {
      hide Allocate;
      succeeded := 0;
      for k := 0 to |items|
        invariant AllocateAll(Now(), now, maxActiveBoostsPerUser, items[k..])
               == AllocateAll(old(Now()), now, maxActiveBoostsPerUser, items)
        invariant succeeded + Successes(Now(), now, maxActiveBoostsPerUser, items[k..])
               == Successes(old(Now()), now, maxActiveBoostsPerUser, items)
      {
        assert items[k..][1..] == items[k + 1..];
        var outcome := AllocateBoost(now, items[k]);
        if outcome.Granted? {
          succeeded := succeeded + 1;
        }
      }
    }

    method BulkRevokeBoosts(boostIds: seq<nat>)
      modifies this`pools, this`boostsByUser
      ensures Now() == RevokeAll(old(Now()), boostIds)
    {
      hide Revoke;
      for k := 0 to |boostIds|
        invariant RevokeAll(Now(), boostIds[k..]) == RevokeAll(old(Now()), boostIds)
      {
        assert boostIds[k..][1..] == boostIds[k + 1..];
        var removed := RevokeBoost(boostIds[k]);
      }
    }
  }

  lemma EvictFirst(pools: map<Feature, Pool>, policies: map<Feature, Policy>, l: Ledger, now: int)
    requires l != []
    ensures var active, expired := Active(l[0].boosts, now), Expired(l[0].boosts, now);
      && EvictPools(pools, policies, l, now) == EvictPools(ReleaseAll(pools, policies, expired), policies, l[1..], now)
      && EvictLedger(l, now)
         == (if active == [] && l[0].boosts != [] then [] else [l[0].(boosts := active)]) + EvictLedger(l[1..], now)
    ensures ReleaseAll(pools, policies, []) == pools
  {
  }

  lemma EvictNone(pools: map<Feature, Pool>, policies: map<Feature, Policy>, now: int)
    ensures EvictPools(pools, policies, [], now) == pools && EvictLedger([], now) == []
  {
  }

  lemma {:induction false} NothingExpired(boosts: seq<Boost>, now: int)
    ensures |Active(boosts, now)| + |Expired(boosts, now)| == |boosts|
    ensures |Active(boosts, now)| == |boosts| ==> Active(boosts, now) == boosts && Expired(boosts, now) == []
  {
    if boosts != [] {
      NothingExpired(boosts[1..], now);
    }
  }

  // ---------------------------------------------------------------- accounting

  /** The units of f that a list of boosts reserves. */
  function Reserved(boosts: seq<Boost>, f: Feature): nat {
    if boosts == [] then 0 else (if boosts[0].feature == f then boosts[0].extraLimit else 0) + Reserved(boosts[1..], f)
  }

  /** The units of f that all live boosts reserve. */
  function Live(l: Ledger, f: Feature): nat {
    if l == [] then 0 else Reserved(l[0].boosts, f) + Live(l[1..], f)
  }

  function ExpiredUnits(l: Ledger, now: int, f: Feature): nat {
    if l == [] then 0 else Reserved(Expired(l[0].boosts, now), f) + ExpiredUnits(l[1..], now, f)
  }

  function Held(pools: map<Feature, Pool>, f: Feature): int { if f in pools then pools[f].held else 0 }

  lemma {:induction false} ReservedConcat(a: seq<Boost>, b: seq<Boost>, f: Feature)
    ensures Reserved(a + b, f) == Reserved(a, f) + Reserved(b, f)
  {
    if a == [] {
      assert a + b == b;
    } else {
      assert (a + b)[1..] == a[1..] + b;
      ReservedConcat(a[1..], b, f);
    }
  }

  lemma ReservedWithout(boosts: seq<Boost>, k: nat, f: Feature)
    requires k < |boosts|
    ensures Reserved(boosts, f) == Reserved([boosts[k]], f) + Reserved(Without(boosts, k), f)
  {
    assert boosts == boosts[..k] + ([boosts[k]] + boosts[k + 1..]);
    ReservedConcat(boosts[..k], [boosts[k]] + boosts[k + 1..], f);
    ReservedConcat([boosts[k]], boosts[k + 1..], f);
    ReservedConcat(boosts[..k], boosts[k + 1..], f);
  }

  lemma {:induction false} ReservedSplits(boosts: seq<Boost>, now: int, f: Feature)
    ensures Reserved(boosts, f) == Reserved(Active(boosts, now), f) + Reserved(Expired(boosts, now), f)
  {
    if boosts != [] {
      ReservedSplits(boosts[1..], now, f);
      ReservedConcat(if boosts[0].expiresAt > now then [boosts[0]] else [], Active(boosts[1..], now), f);
      ReservedConcat(if boosts[0].expiresAt <= now then [boosts[0]] else [], Expired(boosts[1..], now), f);
      assert [boosts[0]][1..] == [];
    }
  }

  lemma {:induction false} LiveConcat(a: Ledger, b: Ledger, f: Feature)
    ensures Live(a + b, f) == Live(a, f) + Live(b, f)
  {
    if a == [] {
      assert a + b == b;
    } else {
      assert (a + b)[1..] == a[1..] + b;
      LiveConcat(a[1..], b, f);
    }
  }

  lemma LiveOne(e: Entry, f: Feature)
    ensures Live([e], f) == Reserved(e.boosts, f)
  {
    assert [e][1..] == [];
  }

  lemma {:induction false} EvictedLive(l: Ledger, now: int, f: Feature)
    ensures Live(l, f) == Live(EvictLedger(l, now), f) + ExpiredUnits(l, now, f)
  {
    if l != [] {
      EvictedLive(l[1..], now, f);
      ReservedSplits(l[0].boosts, now, f);
      var active := Active(l[0].boosts, now);
      LiveConcat([l[0].(boosts := active)], EvictLedger(l[1..], now), f);
      LiveOne(l[0].(boosts := active), f);
      if active == [] && l[0].boosts != [] {
        assert [] + EvictLedger(l[1..], now) == EvictLedger(l[1..], now);
      }
    }
  }

  lemma ReleaseHeld(pools: map<Feature, Pool>, policies: map<Feature, Policy>, b: Boost, f: Feature)
    requires Held(pools, f) >= 0
    ensures Held(Release(pools, policies, b), f) == AtLeastZero(Held(pools, f) - Reserved([b], f))
  {
    assert [b][1..] == [];
  }

  lemma {:induction false} ReleaseAllHeld(pools: map<Feature, Pool>, policies: map<Feature, Policy>, boosts: seq<Boost>, f: Feature)
    requires Held(pools, f) >= 0
    ensures Held(ReleaseAll(pools, policies, boosts), f) == AtLeastZero(Held(pools, f) - Reserved(boosts, f))
    decreases boosts
  {
    if boosts != [] {
      ReleaseHeld(pools, policies, boosts[0], f);
      ReservedConcat([boosts[0]], boosts[1..], f);
      assert [boosts[0]] + boosts[1..] == boosts;
      ReleaseAllHeld(Release(pools, policies, boosts[0]), policies, boosts[1..], f);
    }
  }

  lemma {:induction false} EvictPoolsHeld(pools: map<Feature, Pool>, policies: map<Feature, Policy>, l: Ledger, now: int, f: Feature)
    requires Held(pools, f) >= 0
    ensures Held(EvictPools(pools, policies, l, now), f) == AtLeastZero(Held(pools, f) - ExpiredUnits(l, now, f))
    decreases l
  {
    if l != [] {
      ReleaseAllHeld(pools, policies, Expired(l[0].boosts, now), f);
      EvictPoolsHeld(ReleaseAll(pools, policies, Expired(l[0].boosts, now)), policies, l[1..], now, f);
    }
  }

  /** Eviction drops boosts and gives back what they reserved. */
  lemma EvictAccounts(s: State, now: int, f: Feature)
    requires Held(s.pools, f) >= 0
    ensures Live(Evict(s, now).ledger, f) <= Live(s.ledger, f)
    ensures Held(Evict(s, now).pools, f)
         == AtLeastZero(Held(s.pools, f) - (Live(s.ledger, f) - Live(Evict(s, now).ledger, f)))
  {
    EvictedLive(s.ledger, now, f);
    EvictPoolsHeld(s.pools, s.policies, s.ledger, now, f);
  }

  lemma {:induction false} PutLive(l: Ledger, u: User, boosts: seq<Boost>, f: Feature)
    ensures Live(Put(l, u, boosts), f) == Live(l, f) - Reserved(Lookup(l, u), f) + Reserved(boosts, f)
  {
    if l == [] {
      LiveOne(Entry(u, boosts), f);
    } else if l[0].user == u {
      LiveConcat([Entry(u, boosts)], l[1..], f);
      LiveOne(Entry(u, boosts), f);
    } else {
      PutLive(l[1..], u, boosts, f);
      LiveConcat([l[0]], Put(l[1..], u, boosts), f);
      LiveOne(l[0], f);
    }
  }

  /** A ledger with the entry at k replaced. */
  function Replaced(l: Ledger, k: nat, entry: Ledger): Ledger
    requires k < |l|
  {
    l[..k] + entry + l[k + 1..]
  }

  lemma ReplacedLive(l: Ledger, k: nat, entry: Ledger, f: Feature)
    requires k < |l|
    ensures Live(Replaced(l, k, entry), f) == Live(l, f) - Reserved(l[k].boosts, f) + Live(entry, f)
  {
    LiveOne(l[k], f);
    hide Live, Reserved;
    assert l == l[..k] + ([l[k]] + l[k + 1..]);
    LiveConcat(l[..k], [l[k]] + l[k + 1..], f);
    LiveConcat([l[k]], l[k + 1..], f);
    LiveConcat(l[..k], entry, f);
    LiveConcat(l[..k] + entry, l[k + 1..], f);
  }

  lemma LiveEntry(e: Entry, left: seq<Boost>, f: Feature)
    ensures Live(if left == [] then [] else [e.(boosts := left)], f) == Reserved(left, f)
  {
    LiveOne(e.(boosts := left), f);
  }

  /** Revoking drops one boost and gives back what it reserved. */
  lemma RevokeAccounts(s: State, id: nat, f: Feature)
    requires Held(s.pools, f) >= 0
    ensures Live(Revoke(s, id).ledger, f) <= Live(s.ledger, f)
    ensures Held(Revoke(s, id).pools, f)
         == AtLeastZero(Held(s.pools, f) - (Live(s.ledger, f) - Live(Revoke(s, id).ledger, f)))
  {
    hide Live, Reserved, Release, Without, FindEntry, FindBoost, Held;
    var k := FindEntry(s.ledger, id);
    if k < |s.ledger| {
      var e := s.ledger[k];
      var i := FindBoost(e.boosts, id);
      var left := Without(e.boosts, i);
      var entry: Ledger := if left == [] then [] else [e.(boosts := left)];
      LiveEntry(e, left, f);
      ReleaseHeld(s.pools, s.policies, e.boosts[i], f);
      ReservedWithout(e.boosts, i, f);
      ReplacedLive(s.ledger, k, entry, f);
      assert Revoke(s, id).ledger == Replaced(s.ledger, k, entry);
    }
  }

  // ---------------------------------------------------------------- whole runs

  datatype Op =
    | DoAllocate(now: int, request: Request)
    | DoBulkAllocate(at: int, requests: seq<Request>)
    | DoRevoke(id: nat)
    | DoBulkRevoke(ids: seq<nat>)
    | DoEvict(when: int)
    | DoUpsert(feature: Feature, capacity: int, enabled: bool)
    | DoUse(used: Feature, bonusApplied: bool, effective: int, base: int)
    | DoReset(reset: Feature)

  function Apply(s: State, max: nat, op: Op): State {
    match op
    case DoAllocate(now, r) => Allocate(s, now, max, r).0
    case DoBulkAllocate(now, rs) => AllocateAll(s, now, max, rs)
    case DoRevoke(id) => Revoke(s, id)
    case DoBulkRevoke(ids) => RevokeAll(s, ids)
    case DoEvict(now) => Evict(s, now)
    case DoUpsert(f, c, e) => Upsert(s, f, c, e)
    case DoUse(f, b, eff, base) => Use(s, f, b, eff, base)
    case DoReset(f) => ResetPool(s, f)
  }

  function Run(s: State, max: nat, ops: seq<Op>): State {
    if ops == [] then s else Apply(Run(s, max, ops[..|ops| - 1]), max, ops[|ops| - 1])
  }

  /** What a pool holds never exceeds what live boosts reserve. */
  ghost predicate Within(s: State, f: Feature) { 0 <= Held(s.pools, f) <= Live(s.ledger, f) }

  /** What a pool holds is what live boosts reserve. */
  ghost predicate Exact(s: State, f: Feature) { Held(s.pools, f) == Live(s.ledger, f) }

  lemma EvictKeeps(s: State, now: int, f: Feature)
    requires Within(s, f)
    ensures Within(Evict(s, now), f) && (Exact(s, f) ==> Exact(Evict(s, now), f))
  {
    EvictAccounts(s, now, f);
  }

  lemma AllocateKeeps(s: State, now: int, max: nat, r: Request, f: Feature)
    requires Within(s, f)
    ensures Within(Allocate(s, now, max, r).0, f) && (Exact(s, f) ==> Exact(Allocate(s, now, max, r).0, f))
  {
    EvictKeeps(s, now, f);
    var t, boost := Evict(s, now), NewBoost(r, now);
    hide Evict, Lookup, Put;
    PutLive(t.ledger, r.user, Lookup(t.ledger, r.user) + [boost], f);
    ReservedConcat(Lookup(t.ledger, r.user), [boost], f);
    assert [boost][1..] == [];
  }

  lemma {:induction false} AllocateAllKeeps(s: State, now: int, max: nat, rs: seq<Request>, f: Feature)
    requires Within(s, f)
    ensures Within(AllocateAll(s, now, max, rs), f) && (Exact(s, f) ==> Exact(AllocateAll(s, now, max, rs), f))
    decreases rs
  {
    if rs != [] {
      hide Allocate;
      AllocateKeeps(s, now, max, rs[0], f);
      AllocateAllKeeps(Allocate(s, now, max, rs[0]).0, now, max, rs[1..], f);
    }
  }

  lemma {:induction false} RevokeAllKeeps(s: State, ids: seq<nat>, f: Feature)
    requires Within(s, f)
    ensures Within(RevokeAll(s, ids), f) && (Exact(s, f) ==> Exact(RevokeAll(s, ids), f))
    decreases ids
  {
    if ids != [] {
      hide Revoke;
      RevokeAccounts(s, ids[0], f);
      RevokeAllKeeps(Revoke(s, ids[0]), ids[1..], f);
    }
  }

  /** Every operation keeps a pool within its live reservations, and every one but a reset keeps it exact. */
  lemma OpKeeps(s: State, max: nat, op: Op, f: Feature)
    requires Within(s, f)
    ensures Within(Apply(s, max, op), f)
    ensures Exact(s, f) && (op.DoReset? ==> op.reset != f) ==> Exact(Apply(s, max, op), f)
  {
    hide Allocate, AllocateAll, Revoke, RevokeAll, Evict, Upsert, Use, ResetPool, Live;
    match op
    case DoAllocate(now, r) => AllocateKeeps(s, now, max, r, f);
    case DoBulkAllocate(now, rs) => AllocateAllKeeps(s, now, max, rs, f);
    case DoRevoke(id) => RevokeAccounts(s, id, f);
    case DoBulkRevoke(ids) => RevokeAllKeeps(s, ids, f);
    case DoEvict(now) => EvictKeeps(s, now, f);
    case DoUpsert(g, c, e) => UpsertHeld(s, g, c, e, f);
    case DoUse(g, b, eff, base) => UseHeld(s, g, b, eff, base, f);
    case DoReset(g) => ResetHeld(s, g, f);
  }

  lemma UpsertHeld(s: State, g: Feature, capacity: int, enabled: bool, f: Feature)
    ensures Upsert(s, g, capacity, enabled).ledger == s.ledger && Held(Upsert(s, g, capacity, enabled).pools, f) == Held(s.pools, f)
  {
  }

  lemma UseHeld(s: State, g: Feature, bonusApplied: bool, effective: int, base: int, f: Feature)
    ensures Use(s, g, bonusApplied, effective, base).ledger == s.ledger
    ensures Held(Use(s, g, bonusApplied, effective, base).pools, f) == Held(s.pools, f)
  {
  }

  lemma ResetHeld(s: State, g: Feature, f: Feature)
    ensures ResetPool(s, g).ledger == s.ledger && Held(ResetPool(s, g).pools, f) == if f == g then 0 else Held(s.pools, f)
  {
  }

  /** In every run a pool holds at most what live boosts reserve, and exactly that if it was never reset. */
  lemma {:induction false} RunAccounts(s: State, max: nat, ops: seq<Op>, f: Feature)
    requires s.ledger == [] && Held(s.pools, f) == 0
    ensures Within(Run(s, max, ops), f)
    ensures (forall k :: 0 <= k < |ops| ==> ops[k] != DoReset(f)) ==> Exact(Run(s, max, ops), f)
  {
    if ops != [] {
      var front := ops[..|ops| - 1];
      RunAccounts(s, max, front, f);
      hide Apply;
      OpKeeps(Run(s, max, front), max, ops[|ops| - 1], f);
      if forall k :: 0 <= k < |ops| ==> ops[k] != DoReset(f) {
        assert forall k :: 0 <= k < |front| ==> front[k] == ops[k];
      }
    }
  }

  /** A reset breaks the balance of its feature exactly when a live boost still reserves units of it. */
  lemma ResetExactIff(s: State, f: Feature)
    ensures Exact(ResetPool(s, f), f) <==> Live(s.ledger, f) == 0
  {
  }

  /** A pool is exact after every prefix of a run. */
  ghost predicate AlwaysExact(s: State, max: nat, ops: seq<Op>, f: Feature) {
    forall n :: 0 <= n <= |ops| ==> Exact(Run(s, max, ops[..n]), f)
  }

  /** Every reset of f in a run happens while no live boost reserves units of it. */
  ghost predicate ResetsIdle(s: State, max: nat, ops: seq<Op>, f: Feature) {
    forall n :: 0 <= n < |ops| && ops[n] == DoReset(f) ==> Live(Run(s, max, ops[..n]).ledger, f) == 0
  }

  /** Over whole runs: a pool always holds what live boosts reserve if and only if every reset of it is idle. */
  lemma {:induction false} ResetRunsIff(s: State, max: nat, ops: seq<Op>, f: Feature)
    requires s.ledger == [] && Held(s.pools, f) == 0
    ensures AlwaysExact(s, max, ops, f) <==> ResetsIdle(s, max, ops, f)
  {
    hide Apply, Run, Exact, Live, Within;
    if ops == [] {
      RunAccounts(s, max, ops[..0], f);
    } else {
      var m, op := |ops| - 1, ops[|ops| - 1];
      var front := ops[..m];
      assert forall n :: 0 <= n <= m ==> front[..n] == ops[..n];
      assert ops[..|ops|] == ops && front[..m] == front;
      ResetRunsIff(s, max, front, f);
      RunAccounts(s, max, front, f);
      if Exact(Run(s, max, front), f) {
        RunStepExact(s, max, ops, f);
      }
    }
  }

  /** From an exact pool, the last step of a run leaves it exact unless it is a reset that is not idle. */
  lemma RunStepExact(s: State, max: nat, ops: seq<Op>, f: Feature)
    requires ops != [] && Exact(Run(s, max, ops[..|ops| - 1]), f) && Within(Run(s, max, ops[..|ops| - 1]), f)
    ensures Exact(Run(s, max, ops), f) <==>
      (ops[|ops| - 1] == DoReset(f) ==> Live(Run(s, max, ops[..|ops| - 1]).ledger, f) == 0)
  {
    hide Live;
    var t, op := Run(s, max, ops[..|ops| - 1]), ops[|ops| - 1];
    OpKeeps(t, max, op, f);
    ResetExactIff(t, f);
  }

  /** A granted request leaves its pool within capacity, and reserves what the boost says. */
  lemma GrantedFits(s: State, now: int, max: nat, r: Request)
    requires Allocate(s, now, max, r).1.Granted?
    ensures var (t, o) := Allocate(s, now, max, r);
      && r.feature in t.pools && t.pools[r.feature].held <= t.pools[r.feature].capacity
      && t.pools[r.feature].held == Held(Evict(s, now).pools, r.feature) + o.boost.extraLimit
      && o.boost.expiresAt > now
  {
  }

  // ---------------------------------------------------------------- the cap per user

  predicate HasUser(l: Ledger, u: User) { l != [] && (l[0].user == u || HasUser(l[1..], u)) }

  /** Each user has one entry, with at most max boosts. */
  predicate Capped(l: Ledger, max: nat) {
    l == [] || (|l[0].boosts| <= max && !HasUser(l[1..], l[0].user) && Capped(l[1..], max))
  }

  /** All the boosts a user has, in whatever entries. */
  function BoostsOf(l: Ledger, u: User): nat {
    if l == [] then 0 else (if l[0].user == u then |l[0].boosts| else 0) + BoostsOf(l[1..], u)
  }

  lemma {:induction false} CappedMeans(l: Ledger, max: nat, u: User)
    requires Capped(l, max)
    ensures BoostsOf(l, u) <= max && (!HasUser(l, u) ==> BoostsOf(l, u) == 0)
  {
    if l != [] {
      CappedMeans(l[1..], max, u);
    }
  }

  lemma {:induction false} EvictCapped(l: Ledger, now: int, max: nat, u: User)
    requires Capped(l, max)
    ensures Capped(EvictLedger(l, now), max)
    ensures HasUser(EvictLedger(l, now), u) ==> HasUser(l, u)
  {
    if l != [] {
      NothingExpired(l[0].boosts, now);
      EvictCapped(l[1..], now, max, u);
      EvictCapped(l[1..], now, max, l[0].user);
      hide Active, Expired;
      var active, rest := Active(l[0].boosts, now), EvictLedger(l[1..], now);
      if active == [] && l[0].boosts != [] {
        assert EvictLedger(l, now) == rest;
      } else {
        assert EvictLedger(l, now)[1..] == rest;
      }
    }
  }

  lemma {:induction false} PutCapped(l: Ledger, u: User, boosts: seq<Boost>, max: nat, v: User)
    requires Capped(l, max) && |boosts| <= max
    ensures Capped(Put(l, u, boosts), max)
    ensures HasUser(Put(l, u, boosts), v) ==> v == u || HasUser(l, v)
  {
    if l == [] {
      assert [Entry(u, boosts)][1..] == [];
    } else if l[0].user == u {
      assert ([Entry(u, boosts)] + l[1..])[1..] == l[1..];
    } else {
      PutCapped(l[1..], u, boosts, max, v);
      PutCapped(l[1..], u, boosts, max, l[0].user);
      assert ([l[0]] + Put(l[1..], u, boosts))[1..] == Put(l[1..], u, boosts);
    }
  }

  lemma {:induction false} ReplacedCapped(l: Ledger, k: nat, entry: Ledger, max: nat, v: User)
    requires Capped(l, max) && k < |l|
    requires entry == [] || (|entry| == 1 && entry[0].user == l[k].user && |entry[0].boosts| <= max)
    ensures Capped(Replaced(l, k, entry), max)
    ensures HasUser(Replaced(l, k, entry), v) ==> HasUser(l, v)
    decreases k
  {
    if k == 0 {
      if entry == [] {
        assert Replaced(l, 0, entry) == l[1..];
      } else {
        assert Replaced(l, 0, entry)[1..] == l[1..];
      }
    } else {
      ReplacedCapped(l[1..], k - 1, entry, max, v);
      ReplacedCapped(l[1..], k - 1, entry, max, l[0].user);
      assert Replaced(l, k, entry) == [l[0]] + Replaced(l[1..], k - 1, entry);
    }
  }

  lemma AllocateCapped(s: State, now: int, max: nat, r: Request)
    requires Capped(s.ledger, max)
    ensures Capped(Allocate(s, now, max, r).0.ledger, max)
  {
    EvictCapped(s.ledger, now, max, r.user);
    var l := EvictLedger(s.ledger, now);
    hide EvictLedger, EvictPools, Put, Lookup, Capped;
    if |Lookup(l, r.user)| < max {
      PutCapped(l, r.user, Lookup(l, r.user) + [NewBoost(r, now)], max, r.user);
    }
  }

  lemma {:induction false} AllocateAllCapped(s: State, now: int, max: nat, rs: seq<Request>)
    requires Capped(s.ledger, max)
    ensures Capped(AllocateAll(s, now, max, rs).ledger, max)
    decreases rs
  {
    if rs != [] {
      hide Allocate, Capped;
      AllocateCapped(s, now, max, rs[0]);
      AllocateAllCapped(Allocate(s, now, max, rs[0]).0, now, max, rs[1..]);
    }
  }

  lemma {:induction false} EntryCapped(l: Ledger, k: nat, max: nat)
    requires Capped(l, max) && k < |l|
    ensures |l[k].boosts| <= max
  {
    if k > 0 {
      EntryCapped(l[1..], k - 1, max);
    }
  }

  lemma RevokeCapped(s: State, id: nat, max: nat)
    requires Capped(s.ledger, max)
    ensures Capped(Revoke(s, id).ledger, max)
  {
    var k := FindEntry(s.ledger, id);
    if k < |s.ledger| {
      var e := s.ledger[k];
      var left := Without(e.boosts, FindBoost(e.boosts, id));
      EntryCapped(s.ledger, k, max);
      hide Capped, Release;
      ReplacedCapped(s.ledger, k, if left == [] then [] else [e.(boosts := left)], max, e.user);
    }
  }

  lemma {:induction false} RevokeAllCapped(s: State, ids: seq<nat>, max: nat)
    requires Capped(s.ledger, max)
    ensures Capped(RevokeAll(s, ids).ledger, max)
    decreases ids
  {
    if ids != [] {
      hide Revoke, Capped;
      RevokeCapped(s, ids[0], max);
      RevokeAllCapped(Revoke(s, ids[0]), ids[1..], max);
    }
  }

  lemma OpCapped(s: State, max: nat, op: Op)
    requires Capped(s.ledger, max)
    ensures Capped(Apply(s, max, op).ledger, max)
  {
    hide Capped;
    match op
    case DoAllocate(now, r) => AllocateCapped(s, now, max, r);
    case DoBulkAllocate(now, rs) => AllocateAllCapped(s, now, max, rs);
    case DoRevoke(id) => RevokeCapped(s, id, max);
    case DoBulkRevoke(ids) => RevokeAllCapped(s, ids, max);
    case DoEvict(now) => EvictCapped(s.ledger, now, max, 0);
    case _ =>
  }

  /** In every run no user holds more boosts than the cap. */
  lemma {:induction false} RunCapped(s: State, max: nat, ops: seq<Op>, u: User)
    requires s.ledger == []
    ensures Capped(Run(s, max, ops).ledger, max) && BoostsOf(Run(s, max, ops).ledger, u) <= max
  {
    if ops != [] {
      var front := ops[..|ops| - 1];
      RunCapped(s, max, front, u);
      hide Apply, Capped;
      OpCapped(Run(s, max, front), max, ops[|ops| - 1]);
    }
    CappedMeans(Run(s, max, ops).ledger, max, u);
  }
}
