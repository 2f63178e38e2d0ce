/**
  When src/quota/premium-feature-bonus.service.ts grants a boost and when it refuses, and what it then remembers,
  in terms of the stored policies, boosts and pools and the fields of the request alone.
*/
module BonusGrants {
  import opened Wrappers
  import opened BonusPool

  // ---------------------------------------------------------------- the ledger read directly

  /** The map of boosts has one entry for a user. */
  ghost predicate OneEntryEach(l: Ledger) {
    forall i, j :: 0 <= i < j < |l| ==> l[i].user != l[j].user
  }

  ghost function Users(l: Ledger): set<User> { set e | e in l :: e.user }

  /** All boosts of a user. */
  function BoostsFor(l: Ledger, u: User): seq<Boost> {
    if l == [] then [] else (if l[0].user == u then l[0].boosts else []) + BoostsFor(l[1..], u)
  }

  /** The boosts that have not expired, in order. */
  function Unexpired(boosts: seq<Boost>, now: int): seq<Boost> {
    if boosts == [] then []
    else
      var last := boosts[|boosts| - 1];
      Unexpired(boosts[..|boosts| - 1], now) + if now < last.expiresAt then [last] else []
  }

  /** The units of f that the expired ones of the boosts reserve. */
  function ExpiredIn(boosts: seq<Boost>, now: int, f: Feature): nat {
    if boosts == [] then 0
    else
      var last := boosts[|boosts| - 1];
      ExpiredIn(boosts[..|boosts| - 1], now, f) + if last.expiresAt <= now && last.feature == f then last.extraLimit else 0
  }

  function AllExpired(l: Ledger, now: int, f: Feature): nat {
    if l == [] then 0 else ExpiredIn(l[0].boosts, now, f) + AllExpired(l[1..], now, f)
  }

  lemma HeadFirst(a: seq<Boost>, now: int)
    requires a != []
    ensures Active(a, now) == (if now < a[0].expiresAt then [a[0]] else []) + Active(a[1..], now)
    ensures Expired(a, now) == (if now < a[0].expiresAt then [] else [a[0]]) + Expired(a[1..], now)
  {
  }

  lemma {:induction false} ActiveConcat(a: seq<Boost>, b: seq<Boost>, now: int)
    ensures Active(a + b, now) == Active(a, now) + Active(b, now)
    ensures Expired(a + b, now) == Expired(a, now) + Expired(b, now)
  {
    hide Active, Expired;
    if a == [] {
      assert a + b == b;
      Nothing(now);
    } else {
      assert (a + b)[1..] == a[1..] + b;
      ActiveConcat(a[1..], b, now);
      HeadFirst(a, now);
      HeadFirst(a + b, now);
    }
  }

  lemma Nothing(now: int)
    ensures Active([], now) == [] && Expired([], now) == []
  {
  }

  lemma ActiveOne(b: Boost, now: int)
    ensures Active([b], now) == if now < b.expiresAt then [b] else []
    ensures Expired([b], now) == if now < b.expiresAt then [] else [b]
  {
    assert [b][1..] == [];
  }

  lemma {:induction false} ActiveIs(boosts: seq<Boost>, now: int)
    ensures Active(boosts, now) == Unexpired(boosts, now)
  {
    if boosts != [] {
      var front, last := boosts[..|boosts| - 1], boosts[|boosts| - 1];
      assert boosts == front + [last];
      ActiveIs(front, now);
      ActiveConcat(front, [last], now);
      ActiveOne(last, now);
    }
  }

  lemma {:induction false} ExpiredIs(boosts: seq<Boost>, now: int, f: Feature)
    ensures Reserved(Expired(boosts, now), f) == ExpiredIn(boosts, now, f)
  {
    if boosts != [] {
      var front, last := boosts[..|boosts| - 1], boosts[|boosts| - 1];
      assert boosts == front + [last];
      ExpiredIs(front, now, f);
      ActiveConcat(front, [last], now);
      ActiveOne(last, now);
      ReservedConcat(Expired(front, now), Expired([last], now), f);
      assert [last][1..] == [];
    }
  }

  lemma {:induction false} AllExpiredIs(l: Ledger, now: int, f: Feature)
    ensures ExpiredUnits(l, now, f) == AllExpired(l, now, f)
  {
    if l != [] {
      ExpiredIs(l[0].boosts, now, f);
      AllExpiredIs(l[1..], now, f);
    }
  }

  /** A user has the boosts of the one entry found for it. */
  lemma {:induction false} LookupIs(l: Ledger, u: User)
    requires OneEntryEach(l)
    ensures Lookup(l, u) == BoostsFor(l, u)
  {
    if l != [] {
      RestOneEntry(l);
      LookupIs(l[1..], u);
      if l[0].user == u {
        NoneFor(l[1..], u);
        assert l[0].boosts + [] == l[0].boosts;
      } else {
        assert [] + BoostsFor(l[1..], u) == BoostsFor(l[1..], u);
      }
    }
  }

  lemma RestOneEntry(l: Ledger)
    requires OneEntryEach(l) && l != []
    ensures OneEntryEach(l[1..]) && l[0].user !in Users(l[1..])
    ensures Users(l) == {l[0].user} + Users(l[1..])
  {
    assert forall j :: 0 <= j < |l[1..]| ==> l[1..][j] == l[j + 1];
    assert l == [l[0]] + l[1..];
  }

  lemma OneMore(e: Entry, rest: Ledger)
    ensures OneEntryEach(rest) && e.user !in Users(rest) ==> OneEntryEach([e] + rest)
    ensures Users([e] + rest) == {e.user} + Users(rest)
  {
    assert forall i :: 0 <= i < |rest| ==> rest[i] in rest;
  }

  lemma {:induction false} NoneFor(l: Ledger, u: User)
    requires u !in Users(l)
    ensures BoostsFor(l, u) == []
  {
    if l != [] {
      assert l == [l[0]] + l[1..];
      NoneFor(l[1..], u);
    }
  }

  lemma ForConcat(e: Entry, rest: Ledger, u: User)
    ensures BoostsFor([e] + rest, u) == (if e.user == u then e.boosts else []) + BoostsFor(rest, u)
    ensures BoostsFor([] + rest, u) == BoostsFor(rest, u)
  {
    assert ([e] + rest)[1..] == rest && [] + rest == rest;
  }

  /** Eviction leaves every user its unexpired boosts, and one entry at most. */
  lemma {:induction false} EvictedFor(l: Ledger, now: int, u: User)
    requires OneEntryEach(l)
    ensures BoostsFor(EvictLedger(l, now), u) == Unexpired(BoostsFor(l, u), now)
    ensures OneEntryEach(EvictLedger(l, now)) && Users(EvictLedger(l, now)) <= Users(l)
  {
    hide Active, Unexpired, Users, OneEntryEach, BoostsFor;
    if l == [] {
      NothingFor(u, now);
    } else {
      RestOneEntry(l);
      EvictedFor(l[1..], now, u);
      var e, rest := l[0].(boosts := Active(l[0].boosts, now)), EvictLedger(l[1..], now);
      ForConcat(e, rest, u);
      ActiveIs(l[0].boosts, now);
      EvictStep(l, now, u);
      OneMore(e, rest);
      assert [] + rest == rest && [] + BoostsFor(rest, u) == BoostsFor(rest, u);
    }
  }

  lemma NothingFor(u: User, now: int)
    ensures BoostsFor([], u) == [] && Unexpired([], now) == [] && OneEntryEach([]) && Users([]) == {}
  {
  }

  lemma EvictStep(l: Ledger, now: int, u: User)
    requires OneEntryEach(l) && l != []
    ensures Unexpired(BoostsFor(l, u), now)
         == (if l[0].user == u then Unexpired(l[0].boosts, now) else []) + Unexpired(BoostsFor(l[1..], u), now)
  {
    RestOneEntry(l);
    if l[0].user == u {
      NoneFor(l[1..], u);
      assert l[0].boosts + [] == l[0].boosts;
      assert Unexpired(l[0].boosts, now) + [] == Unexpired(l[0].boosts, now);
    } else {
      assert [] + BoostsFor(l[1..], u) == BoostsFor(l[1..], u);
    }
  }

  /** Writing a user's boosts changes that user's alone. */
  lemma {:induction false} PutFor(l: Ledger, u: User, boosts: seq<Boost>, v: User)
    requires OneEntryEach(l)
    ensures BoostsFor(Put(l, u, boosts), v) == if v == u then boosts else BoostsFor(l, v)
    ensures OneEntryEach(Put(l, u, boosts)) && Users(Put(l, u, boosts)) == Users(l) + {u}
  {
    hide Users, OneEntryEach, BoostsFor;
    var e := Entry(u, boosts);
    if l == [] {
      NothingFor(v, 0);
      ForConcat(e, [], v);
      OneMore(e, []);
      assert [e] + [] == [e] && boosts + [] == boosts;
    } else {
      RestOneEntry(l);
      ForConcat(l[0], l[1..], v);
      assert [l[0]] + l[1..] == l;
      if l[0].user == u {
        ForConcat(e, l[1..], v);
        OneMore(e, l[1..]);
        NoneFor(l[1..], u);
        assert boosts + [] == boosts;
      } else {
        PutFor(l[1..], u, boosts, v);
        ForConcat(l[0], Put(l[1..], u, boosts), v);
        OneMore(l[0], Put(l[1..], u, boosts));
        assert [] + boosts == boosts;
      }
    }
  }

  // ---------------------------------------------------------------- granting and refusing

  /** The policy that a request for f comes under: the feature's own, or the one for feature 0, "default". */
  function PolicyOf(s: State, f: Feature): Option<Policy> {
    if f in s.policies then Some(s.policies[f]) else if 0 in s.policies then Some(s.policies[0]) else None
  }

  /** The pool capacity that a policy gives, between a hundred and ten million. */
  function CapacityUnder(p: Policy): int {
    if p.poolCapacity < 100 then 100 else if p.poolCapacity > 10_000_000 then 10_000_000 else p.poolCapacity
  }

  /** The units a request is for, between none and half a million. */
  function UnitsOf(r: Request): nat {
    if r.extraLimit < 0 then 0 else if r.extraLimit > 500_000 then 500_000 else r.extraLimit
  }

  /** How long its boost lasts, between a minute and thirty days. */
  function MinutesOf(r: Request): nat {
    if r.durationMinutes < 1 then 1 else if r.durationMinutes > 43_200 then 43_200 else r.durationMinutes
  }

  /** What the pool of f holds once all expired boosts have been given back. */
  function HeldOf(s: State, now: int, f: Feature): int {
    var held := if f in s.pools then s.pools[f].held else 0;
    if held > AllExpired(s.ledger, now, f) then held - AllExpired(s.ledger, now, f) else 0
  }

  /** How many of a user's boosts have not expired. */
  function UnexpiredOf(s: State, now: int, u: User): nat { |Unexpired(BoostsFor(s.ledger, u), now)| }

  predicate Enabled(s: State, f: Feature) { PolicyOf(s, f).Some? && PolicyOf(s, f).value.enabled }

  predicate Fits(s: State, now: int, r: Request)
    requires PolicyOf(s, r.feature).Some?
  {
    HeldOf(s, now, r.feature) + UnitsOf(r) <= CapacityUnder(PolicyOf(s, r.feature).value)
  }

  lemma EvictedIs(s: State, now: int, f: Feature, u: User)
    requires OneEntryEach(s.ledger) && Held(s.pools, f) >= 0
    ensures var t := Evict(s, now);
      && t.policies == s.policies && Held(t.pools, f) == HeldOf(s, now, f)
      && OneEntryEach(t.ledger) && BoostsFor(t.ledger, u) == Lookup(t.ledger, u) == Unexpired(BoostsFor(s.ledger, u), now)
  {
    hide EvictLedger, EvictPools, OneEntryEach, BoostsFor, Unexpired, Lookup, ExpiredUnits, AllExpired;
    EvictedFor(s.ledger, now, u);
    EvictPoolsHeld(s.pools, s.policies, s.ledger, now, f);
    AllExpiredIs(s.ledger, now, f);
    LookupIs(EvictLedger(s.ledger, now), u);
  }

  /**
    When each outcome occurs. A request is granted if and only if its policy exists and is enabled, the user has
    fewer unexpired boosts than the cap, and its units fit into what is left of the pool. The boost is for those
    units and ends after those minutes.
  */
  lemma OutcomeIs(s: State, now: int, max: nat, r: Request)
    requires OneEntryEach(s.ledger) && (r.feature in s.pools ==> s.pools[r.feature].held >= 0)
    ensures var outcome := Allocate(s, now, max, r).1;
      && (outcome == PolicyDisabled <==> !Enabled(s, r.feature))
      && (outcome == TooManyBoosts <==> Enabled(s, r.feature) && UnexpiredOf(s, now, r.user) >= max)
      && (outcome == PoolExhausted <==>
            Enabled(s, r.feature) && UnexpiredOf(s, now, r.user) < max && !Fits(s, now, r))
      && (outcome == Granted(Boost(r.id, r.feature, UnitsOf(r), now + MinutesOf(r) * 60_000)) <==>
            Enabled(s, r.feature) && UnexpiredOf(s, now, r.user) < max && Fits(s, now, r))
      && (outcome.Granted? <==> Enabled(s, r.feature) && UnexpiredOf(s, now, r.user) < max && Fits(s, now, r))
  {
    hide Evict, HeldOf, BoostsFor, Unexpired, Lookup, Put;
    EvictedIs(s, now, r.feature, r.user);
    HeldStays(Evict(s, now).pools, r.feature);
  }

  lemma HeldStays(pools: map<Feature, Pool>, f: Feature)
    ensures forall capacity :: WithPool(pools, f, capacity)[f].held == Held(pools, f)
  {
  }

  /**
    What is remembered afterwards: every user has its unexpired boosts, the one that was granted its new boost
    behind them; and the pool of a granted request holds the units on top and has its policy's capacity.
  */
  lemma AllocatedIs(s: State, now: int, max: nat, r: Request, u: User)
    requires OneEntryEach(s.ledger) && (r.feature in s.pools ==> s.pools[r.feature].held >= 0)
    ensures var (t, outcome) := Allocate(s, now, max, r);
      && OneEntryEach(t.ledger) && t.policies == s.policies
      && BoostsFor(t.ledger, u)
         == Unexpired(BoostsFor(s.ledger, u), now) + (if outcome.Granted? && u == r.user then [outcome.boost] else [])
      && (outcome.Granted? ==>
            && r.feature in t.pools && t.pools[r.feature].held == HeldOf(s, now, r.feature) + UnitsOf(r)
            && t.pools[r.feature].capacity == CapacityUnder(PolicyOf(s, r.feature).value))
      && (!outcome.Granted? ==> Held(t.pools, r.feature) == HeldOf(s, now, r.feature))
  {
    hide Evict, HeldOf, BoostsFor, Unexpired, Lookup, Put, EvictLedger, OneEntryEach;
    EvictedIs(s, now, r.feature, u);
    EvictedIs(s, now, r.feature, r.user);
    var e := Evict(s, now);
    PutFor(e.ledger, r.user, Lookup(e.ledger, r.user) + [NewBoost(r, now)], u);
    HeldStays(e.pools, r.feature);
    assert Unexpired(BoostsFor(s.ledger, u), now) + [] == Unexpired(BoostsFor(s.ledger, u), now);
  }

  // ---------------------------------------------------------------- the start, and every run

  /** A new service: four enabled policies, a pool for each that is empty and unused, and no boosts. */
  lemma SeededIs()
    ensures var s := Seeded(|Defaults|);
      && s.ledger == []
      && s.policies == map[0 := Policy(120_000, true), 1 := Policy(250_000, true), 2 := Policy(150_000, true), 3 := Policy(80_000, true)]
      && s.pools == map[0 := Pool(120_000, 0, 0), 1 := Pool(250_000, 0, 0), 2 := Pool(150_000, 0, 0), 3 := Pool(80_000, 0, 0)]
  {
    SeededUpTo(1);
    SeededUpTo(2);
    SeededUpTo(3);
    SeededUpTo(4);
  }

  lemma SeededUpTo(n: nat)
    requires 0 < n <= |Defaults|
    ensures var before, s, (f, capacity) := Seeded(n - 1), Seeded(n), Defaults[n - 1];
      && s.ledger == before.ledger && s.policies == before.policies[f := Policy(capacity, true)]
      && s.pools == WithPool(before.pools, f, capacity) && Seeded(0) == State(map[], [], map[])
  {
  }

  /** In every run the map of boosts has one entry for a user. */
  lemma RunOneEntry(s: State, max: nat, ops: seq<Op>)
    requires s.ledger == []
    ensures OneEntryEach(Run(s, max, ops).ledger)
  {
    RunCapped(s, max, ops, 0);
    CappedOneEntry(Run(s, max, ops).ledger, max);
  }

  lemma {:induction false} CappedOneEntry(l: Ledger, max: nat)
    requires Capped(l, max)
    ensures OneEntryEach(l)
  {
    if l != [] {
      CappedOneEntry(l[1..], max);
      forall j | 0 < j < |l| ensures l[j].user != l[0].user {
        OnlyFirst(l[1..], l[0].user, j - 1);
      }
      assert forall i :: 0 <= i < |l[1..]| ==> l[1..][i] == l[i + 1];
    }
  }

  lemma {:induction false} OnlyFirst(l: Ledger, u: User, j: nat)
    requires !HasUser(l, u) && j < |l|
    ensures l[j].user != u
  {
    if j > 0 {
      OnlyFirst(l[1..], u, j - 1);
    }
  }
}
