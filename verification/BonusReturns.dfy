/**
  What src/quota/premium-feature-bonus.service.ts takes back, and what its other operations do to a pool, in terms of
  the stored policies, boosts and pools alone.
*/
module BonusReturns {
  import opened Wrappers
  import opened BonusPool
  import opened BonusGrants

  /** The capacity that the pool of f is given back with: its policy's, or that for 20 000 units without one. */
  function CapacityHere(s: State, f: Feature): int {
    CapacityUnder(if f in s.policies then s.policies[f] else Policy(20_000, true))
  }

  /** What the pool of f holds and has counted, nothing while there is none. */
  function PoolHere(s: State, f: Feature): Pool { if f in s.pools then s.pools[f] else Pool(0, 0, 0) }

  // ---------------------------------------------------------------- expiry

  ghost predicate HasOne(boosts: seq<Boost>, f: Feature) { exists j :: 0 <= j < |boosts| && boosts[j].feature == f }

  /** Some boost of f has expired. */
  ghost predicate AnyExpired(l: Ledger, now: int, f: Feature) {
    exists i, j :: 0 <= i < |l| && 0 <= j < |l[i].boosts| && l[i].boosts[j].expiresAt <= now && l[i].boosts[j].feature == f
  }

  lemma {:induction false} ExpiredHas(boosts: seq<Boost>, now: int, f: Feature)
    ensures HasOne(Expired(boosts, now), f)
       <==> exists j :: 0 <= j < |boosts| && boosts[j].expiresAt <= now && boosts[j].feature == f
  {
    if boosts != [] {
      var rest := Expired(boosts[1..], now);
      ExpiredHas(boosts[1..], now, f);
      assert forall j :: 1 <= j < |boosts| ==> boosts[1..][j - 1] == boosts[j];
      if boosts[0].expiresAt <= now {
        OneOf(boosts[0], rest, f);
      } else {
        assert [] + rest == rest;
      }
    }
  }

  lemma OneOf(b: Boost, rest: seq<Boost>, f: Feature)
    ensures HasOne([b] + rest, f) <==> b.feature == f || HasOne(rest, f)
  {
    assert ([b] + rest)[0] == b;
    assert forall j :: 0 <= j < |rest| ==> ([b] + rest)[j + 1] == rest[j];
  }

  /** Giving back boosts renews the capacity of their features' pools, counts nothing, and leaves other pools alone. */
  lemma {:induction false} AllReleased(s: State, pools: map<Feature, Pool>, boosts: seq<Boost>, f: Feature)
    ensures var after, p := ReleaseAll(pools, s.policies, boosts), PoolHere(s.(pools := pools), f);
      if HasOne(boosts, f) then f in after && after[f] == Pool(CapacityHere(s, f), after[f].held, p.consumed)
      else (f in after <==> f in pools) && (f in pools ==> after[f] == pools[f])
    decreases boosts
  {
    if boosts != [] {
      OneOf(boosts[0], boosts[1..], f);
      assert [boosts[0]] + boosts[1..] == boosts;
      AllReleased(s, Release(pools, s.policies, boosts[0]), boosts[1..], f);
    }
  }

  lemma {:induction false} AllEvicted(s: State, pools: map<Feature, Pool>, l: Ledger, now: int, f: Feature)
    ensures var after, p := EvictPools(pools, s.policies, l, now), PoolHere(s.(pools := pools), f);
      if AnyExpired(l, now, f) then f in after && after[f] == Pool(CapacityHere(s, f), after[f].held, p.consumed)
      else (f in after <==> f in pools) && (f in pools ==> after[f] == pools[f])
    decreases l
  {
    hide CapacityHere;
    if l != [] {
      var mid := ReleaseAll(pools, s.policies, Expired(l[0].boosts, now));
      AllReleased(s, pools, Expired(l[0].boosts, now), f);
      ExpiredHas(l[0].boosts, now, f);
      AllEvicted(s, mid, l[1..], now, f);
      AnyFrom(l, now, f);
    }
  }

  lemma AnyFrom(l: Ledger, now: int, f: Feature)
    requires l != []
    ensures AnyExpired(l, now, f) <==>
      || AnyExpired(l[1..], now, f)
      || exists j :: 0 <= j < |l[0].boosts| && l[0].boosts[j].expiresAt <= now && l[0].boosts[j].feature == f
  {
    assert forall i :: 1 <= i < |l| ==> l[1..][i - 1] == l[i];
  }

  /**
    Eviction renews the pool of every feature of which a boost has expired: its capacity is its policy's and it holds
    less by the expired units, not less than nothing. It counts no use, and leaves every other pool alone.
  */
  lemma EvictedPoolIs(s: State, now: int, f: Feature)
    requires Held(s.pools, f) >= 0
    ensures var after := Evict(s, now).pools;
      if AnyExpired(s.ledger, now, f)
      then f in after && after[f] == Pool(CapacityHere(s, f), HeldOf(s, now, f), PoolHere(s, f).consumed)
      else (f in after <==> f in s.pools) && (f in s.pools ==> after[f] == s.pools[f])
  {
    hide AllExpired, ExpiredUnits, EvictPools, AnyExpired, CapacityHere;
    AllEvicted(s, s.pools, s.ledger, now, f);
    EvictPoolsHeld(s.pools, s.policies, s.ledger, now, f);
    AllExpiredIs(s.ledger, now, f);
  }

  // ---------------------------------------------------------------- revocation

  ghost predicate HasBoost(l: Ledger, id: nat) {
    exists i, j :: 0 <= i < |l| && 0 <= j < |l[i].boosts| && l[i].boosts[j].id == id
  }

  lemma {:induction false} ForBoth(a: Ledger, b: Ledger, u: User)
    ensures BoostsFor(a + b, u) == BoostsFor(a, u) + BoostsFor(b, u)
  {
    if a == [] {
      assert a + b == b && [] + BoostsFor(b, u) == BoostsFor(b, u);
    } else {
      assert (a + b)[1..] == a[1..] + b;
      ForBoth(a[1..], b, u);
    }
  }

  lemma ForOne(e: Entry, u: User)
    ensures BoostsFor([e], u) == if e.user == u then e.boosts else []
  {
    assert [e][1..] == [] && e.boosts + [] == e.boosts;
  }

  /** With one entry each, replacing the entry of a user replaces that user's boosts and no other's. */
  lemma ReplacedFor(l: Ledger, k: nat, left: seq<Boost>, u: User)
    requires OneEntryEach(l) && k < |l|
    ensures var e := l[k];
      var after := Replaced(l, k, if left == [] then [] else [e.(boosts := left)]);
      && BoostsFor(l, e.user) == e.boosts
      && BoostsFor(after, u) == if u == e.user then left else BoostsFor(l, u)
  {
    hide BoostsFor, OneEntryEach;
    var e := l[k];
    Alone(l, k);
    ReplacedParts(l, k, [e], u);
    ReplacedParts(l, k, [e], e.user);
    ReplacedParts(l, k, if left == [] then [] else [e.(boosts := left)], u);
    ForOne(e, u);
    ForOne(e, e.user);
    ForOne(e.(boosts := left), u);
    NothingFor(u, 0);
    assert Replaced(l, k, [e]) == l;
    if u == e.user {
      NothingAround(left);
      NothingAround(e.boosts);
    } else {
      assert BoostsFor(l, u) == BoostsFor(l[..k], u) + BoostsFor(l[k + 1..], u);
    }
  }

  lemma NothingAround(boosts: seq<Boost>)
    ensures [] + boosts + [] == boosts
  {
  }

  lemma ReplacedParts(l: Ledger, k: nat, entry: Ledger, u: User)
    requires k < |l|
    ensures BoostsFor(Replaced(l, k, entry), u) == BoostsFor(l[..k], u) + BoostsFor(entry, u) + BoostsFor(l[k + 1..], u)
  {
    ForBoth(l[..k] + entry, l[k + 1..], u);
    ForBoth(l[..k], entry, u);
  }

  lemma Alone(l: Ledger, k: nat)
    requires OneEntryEach(l) && k < |l|
    ensures BoostsFor(l[..k], l[k].user) == [] && BoostsFor(l[k + 1..], l[k].user) == []
  {
    NoneFor(l[..k], l[k].user);
    NoneFor(l[k + 1..], l[k].user);
  }

  lemma ReplacedOneEntry(l: Ledger, k: nat, entry: Ledger)
    requires OneEntryEach(l) && k < |l| && |entry| <= 1 && (entry != [] ==> entry[0].user == l[k].user)
    ensures OneEntryEach(Replaced(l, k, entry))
  {
    var after := Replaced(l, k, entry);
    var gap := 1 - |entry|;
    assert forall i :: 0 <= i < |after| ==> after[i].user == l[if i < k then i else i + gap].user;
  }

  /**
    Revoking takes the boost with the id from the user who has it, if there is one, and gives it back: the pool of its
    feature has its policy's capacity and holds less by its units, not less than nothing. Nothing else changes.
  */
  lemma RevokedIs(s: State, id: nat, u: User) returns (v: User, k: nat)
    requires OneEntryEach(s.ledger)
    ensures !HasBoost(s.ledger, id) ==> Revoke(s, id) == s
    ensures HasBoost(s.ledger, id) ==>
      var had, t := BoostsFor(s.ledger, v), Revoke(s, id);
      && k < |had| && had[k].id == id && t.policies == s.policies && OneEntryEach(t.ledger)
      && BoostsFor(t.ledger, u) == (if u == v then had[..k] + had[k + 1..] else BoostsFor(s.ledger, u))
      && var b := had[k];
      var p := PoolHere(s, b.feature);
      t.pools == s.pools[b.feature := Pool(CapacityHere(s, b.feature), Max(p.held - b.extraLimit, 0), p.consumed)]
  {
    hide BoostsFor, OneEntryEach, CapacityHere;
    var place := FindEntry(s.ledger, id);
    if place == |s.ledger| {
      v, k := 0, 0;
      forall i, j | 0 <= i < |s.ledger| && 0 <= j < |s.ledger[i].boosts| ensures s.ledger[i].boosts[j].id != id {
        assert FindBoost(s.ledger[i].boosts, id) == |s.ledger[i].boosts|;
      }
    } else {
      var e := s.ledger[place];
      v, k := e.user, FindBoost(e.boosts, id);
      var left := e.boosts[..k] + e.boosts[k + 1..];
      ReplacedFor(s.ledger, place, left, u);
      ReplacedOneEntry(s.ledger, place, if left == [] then [] else [e.(boosts := left)]);
      ReleasedIs(s, e.boosts[k]);
    }
  }

  lemma ReleasedIs(s: State, b: Boost)
    ensures var p := PoolHere(s, b.feature);
      Release(s.pools, s.policies, b)
      == s.pools[b.feature := Pool(CapacityHere(s, b.feature), Max(p.held - b.extraLimit, 0), p.consumed)]
  {
  }

  // ---------------------------------------------------------------- policies, resets and use

  /** A policy is stored with its capacity between a hundred and ten million, and its pool, new or not, has that capacity. */
  lemma UpsertedIs(s: State, f: Feature, capacity: int, enabled: bool)
    ensures var t, c, p := Upsert(s, f, capacity, enabled), CapacityUnder(Policy(capacity, enabled)), PoolHere(s, f);
      && t.ledger == s.ledger && t.policies == s.policies[f := Policy(c, enabled)]
      && t.pools == s.pools[f := Pool(c, p.held, p.consumed)]
  {
  }

  /** A reset empties the pool, makes one if there was none, and renews its capacity. */
  lemma ResetIs(s: State, f: Feature)
    ensures ResetPool(s, f) == s.(pools := s.pools[f := Pool(CapacityHere(s, f), 0, 0)])
  {
  }

  /** A use counts what the effective limit is above the base, up to the capacity, if a bonus was applied and there is a pool. */
  lemma UsedIs(s: State, f: Feature, bonusApplied: bool, effective: int, base: int)
    ensures var t := Use(s, f, bonusApplied, effective, base);
      && (!bonusApplied || f !in s.pools ==> t == s)
      && (bonusApplied && f in s.pools ==>
            var p := s.pools[f];
            t == s.(pools := s.pools[f := Pool(p.capacity, p.held, Min(p.consumed + Max(effective - base, 0), p.capacity))]))
  {
  }

  // ---------------------------------------------------------------- in bulk

  lemma {:induction false} AllocatedMore(s: State, now: int, max: nat, rs: seq<Request>, r: Request)
    ensures var t := AllocateAll(s, now, max, rs);
      && AllocateAll(s, now, max, rs + [r]) == Allocate(t, now, max, r).0
      && Successes(s, now, max, rs + [r])
         == Successes(s, now, max, rs) + if Allocate(t, now, max, r).1.Granted? then 1 else 0
    decreases rs
  {
    hide Allocate;
    if rs == [] {
      assert [] + [r] == [r] && [r][1..] == [];
    } else {
      assert (rs + [r])[1..] == rs[1..] + [r];
      AllocatedMore(Allocate(s, now, max, rs[0]).0, now, max, rs[1..], r);
    }
  }

  /** The places of the requests that are granted, each on what the requests before it left. */
  ghost function GrantedPlaces(s: State, now: int, max: nat, rs: seq<Request>): set<nat> {
    set k: nat | k < |rs| && Allocate(AllocateAll(s, now, max, rs[..k]), now, max, rs[k]).1.Granted?
  }

  lemma GrantedMore(s: State, now: int, max: nat, rs: seq<Request>, r: Request)
    ensures |GrantedPlaces(s, now, max, rs + [r])| == |GrantedPlaces(s, now, max, rs)|
         + if Allocate(AllocateAll(s, now, max, rs), now, max, r).1.Granted? then 1 else 0
  {
    hide Allocate, AllocateAll;
    var all := rs + [r];
    assert forall k :: 0 <= k <= |rs| ==> all[..k] == rs[..k];
    assert rs[..|rs|] == rs;
    var before := GrantedPlaces(s, now, max, rs);
    if Allocate(AllocateAll(s, now, max, rs), now, max, r).1.Granted? {
      assert GrantedPlaces(s, now, max, all) == before + {|rs|};
    } else {
      assert GrantedPlaces(s, now, max, all) == before;
    }
  }

  /** Requests in bulk are dealt with one after the other, each on what the one before left. */
  lemma BulkInTurn(s: State, now: int, max: nat, rs: seq<Request>, k: nat)
    requires k < |rs|
    ensures AllocateAll(s, now, max, []) == s
    ensures AllocateAll(s, now, max, rs[..k + 1]) == Allocate(AllocateAll(s, now, max, rs[..k]), now, max, rs[k]).0
  {
    assert rs[..k + 1] == rs[..k] + [rs[k]];
    AllocatedMore(s, now, max, rs[..k], rs[k]);
  }

  /** Those that are granted are counted. */
  lemma {:induction false} BulkIs(s: State, now: int, max: nat, rs: seq<Request>)
    ensures Successes(s, now, max, rs) == |GrantedPlaces(s, now, max, rs)|
  {
    hide Allocate, AllocateAll, GrantedPlaces;
    if rs == [] {
      NoneGranted(s, now, max);
    } else {
      var front, last := rs[..|rs| - 1], rs[|rs| - 1];
      assert rs == front + [last];
      BulkIs(s, now, max, front);
      AllocatedMore(s, now, max, front, last);
      GrantedMore(s, now, max, front, last);
    }
  }

  lemma NoneGranted(s: State, now: int, max: nat)
    ensures GrantedPlaces(s, now, max, []) == {}
  {
  }

  lemma {:induction false} RevokedMore(s: State, ids: seq<nat>, id: nat)
    ensures RevokeAll(s, ids + [id]) == Revoke(RevokeAll(s, ids), id)
    decreases ids
  {
    hide Revoke;
    if ids == [] {
      assert [] + [id] == [id] && [id][1..] == [];
    } else {
      assert (ids + [id])[1..] == ids[1..] + [id];
      RevokedMore(Revoke(s, ids[0]), ids[1..], id);
    }
  }
}
