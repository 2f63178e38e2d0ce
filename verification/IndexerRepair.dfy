/**
  Polls of src/indexer/indexer.service.ts on tables that an earlier poll did not heal: which rows of the chain
  a poll brings back, which stay lost, and when it repairs the whole table.
*/
module IndexerRepair {
  import opened Wrappers
  import opened Indexer

  // ---------------------------------------------------------------- what a rollback leaves

  /** Below start nothing is walked; the walk stops at start - 1 or on a block of the chain. */
  lemma {:induction false} RollbackStops(t: Table, c: Chain, b: int, start: nat)
    requires forall r :: r in t && r.blockNumber > b && r.blockNumber >= start ==> r.blockNumber >= |c|
    ensures var (lastSafe, kept) := Rollback(t, c, b, start);
      && start - 1 <= lastSafe
      && (forall r :: r in kept ==> r in t)
      && forall r :: r in kept && r.blockNumber > lastSafe ==> r.blockNumber >= |c|
    decreases b + 1
  {
    if b >= start {
      match FindOne(t, b)
      case None => RollbackStops(t, c, b - 1, start);
      case Some(event) =>
        if b >= |c| {
          RollbackStops(t, c, b - 1, start);
        } else if c[b].hash != event.blockHash {
          DeleteFromKeeps(t, b);
          RollbackStops(DeleteFrom(t, b), c, b - 1, start);
        }
    }
  }

  /** What a rollback leaves of any table: of its own rows those up to where it stopped, and rows above the head. */
  lemma RolledStops(t: Table, c: Chain, start: nat)
    ensures var (lastSafe, kept) := Rolled(t, c, start);
      && start - 1 <= lastSafe
      && (forall r :: r in kept ==> r in t)
      && forall r :: r in kept && r.blockNumber > lastSafe ==> r.blockNumber >= |c|
  {
    if t != [] {
      var top := HighestIsMax(t);
      RollbackStops(t, c, Highest(t), start);
    }
  }

  /** The first row stored for block b carries the hash that the block has on the chain. */
  predicate OnChain(t: Table, c: Chain, b: nat) {
    b < |c| && FindOne(t, b).Some? && FindOne(t, b).value.blockHash == c[b].hash
  }

  /** The highest block from start to b that is on chain; below start if there is none. */
  function StopFrom(t: Table, c: Chain, b: int, start: nat): (stop: int)
    ensures start - 1 <= stop && (stop >= start ==> stop <= b && OnChain(t, c, stop))
    ensures forall k :: start <= k <= b && stop < k ==> !OnChain(t, c, k)
    decreases b + 1
  {
    if b < start then start - 1 else if OnChain(t, c, b) then b else StopFrom(t, c, b - 1, start)
  }

  /** The highest stored block from start on that is still on the chain. */
  function Stop(t: Table, c: Chain, start: nat): int { StopFrom(t, c, |c| - 1, start) }

  ghost predicate Between(t: Table, lo: int, hi: int) { exists r :: r in t && lo < r.blockNumber < hi }

  /** A block above where a rollback stops, up to the head, has been reorganised. */
  ghost predicate Reorganised(t: Table, c: Chain, start: nat) { Between(t, Stop(t, c, start), |c|) }

  /** What a rollback leaves: everything, or when a block has been reorganised the rows up to where it stops. */
  ghost function Left(t: Table, c: Chain, start: nat): Table {
    if Reorganised(t, c, start) then DeleteFrom(t, Stop(t, c, start) + 1) else t
  }

  lemma {:induction false} FindOneAppend(t: Table, u: Table, b: int)
    ensures FindOne(t + u, b) == if FindOne(t, b).Some? then FindOne(t, b) else FindOne(u, b)
  {
    if t == [] {
      assert t + u == u;
    } else {
      assert (t + u)[1..] == t[1..] + u;
      FindOneAppend(t[1..], u, b);
    }
  }

  /** Deleting from a block on changes nothing in the blocks below. */
  lemma {:induction false} FindOneDeleted(t: Table, b: int, k: int)
    requires k < b
    ensures FindOne(DeleteFrom(t, b), k) == FindOne(t, k)
  {
    if t != [] {
      var front, last := t[..|t| - 1], t[|t| - 1];
      assert t == front + [last];
      FindOneDeleted(front, b, k);
      FindOneAppend(front, [last], k);
      FindOneAppend(DeleteFrom(front, b), [last], k);
    }
  }

  lemma {:induction false} StopDeleted(t: Table, c: Chain, b: int, k: int, start: nat)
    requires k < b
    ensures StopFrom(DeleteFrom(t, b), c, k, start) == StopFrom(t, c, k, start)
    decreases k + 1
  {
    hide FindOne, DeleteFrom;
    if k >= start {
      FindOneDeleted(t, b, k);
      StopDeleted(t, c, b, k - 1, start);
    }
  }

  lemma {:induction false} DeleteTwice(t: Table, b: int, k: int)
    requires k <= b
    ensures DeleteFrom(DeleteFrom(t, b), k) == DeleteFrom(t, k)
  {
    if t != [] {
      DeleteTwice(t[..|t| - 1], b, k);
      var rest := DeleteFrom(t[..|t| - 1], b);
      assert (rest + [t[|t| - 1]])[..|rest|] == rest;
    }
  }

  lemma NoneBetween(t: Table, c: Chain, b: int, start: nat, stop: int)
    requires forall r :: r in t && r.blockNumber > b && r.blockNumber >= start ==> r.blockNumber >= |c|
    requires b <= stop && start - 1 <= stop
    ensures !Between(t, stop, |c|)
  {
  }

  lemma WalkOn(t: Table, c: Chain, b: int, start: nat)
    requires start <= b && (FindOne(t, b).None? || b >= |c|)
    requires forall r :: r in t && r.blockNumber > b && r.blockNumber >= start ==> r.blockNumber >= |c|
    ensures Rollback(t, c, b, start) == Rollback(t, c, b - 1, start)
    ensures StopFrom(t, c, b, start) == StopFrom(t, c, b - 1, start)
    ensures forall r :: r in t && r.blockNumber > b - 1 && r.blockNumber >= start ==> r.blockNumber >= |c|
  {
  }

  /** The walk down from b, on table and chain alone. */
  lemma {:induction false} RollbackIs(t: Table, c: Chain, b: int, start: nat)
    requires forall r :: r in t && r.blockNumber > b && r.blockNumber >= start ==> r.blockNumber >= |c|
    ensures var stop := StopFrom(t, c, b, start);
      Rollback(t, c, b, start) == (stop, if Between(t, stop, |c|) then DeleteFrom(t, stop + 1) else t)
    decreases b + 1
  {
    hide DeleteFrom, FindOne, Between;
    if b < start {
      NoneBetween(t, c, b, start, start - 1);
    } else if FindOne(t, b).None? || b >= |c| {
      WalkOn(t, c, b, start);
      RollbackIs(t, c, b - 1, start);
    } else if c[b].hash == FindOne(t, b).value.blockHash {
      NoneBetween(t, c, b, start, b);
    } else {
      WalkDeletes(t, c, b, start);
    }
  }

  lemma {:induction false} WalkDeletes(t: Table, c: Chain, b: nat, start: nat)
    requires start <= b < |c| && FindOne(t, b).Some? && c[b].hash != FindOne(t, b).value.blockHash
    ensures var stop := StopFrom(t, c, b, start);
      Rollback(t, c, b, start) == (stop, DeleteFrom(t, stop + 1)) && Between(t, stop, |c|)
    decreases b + 1, 0
  {
    hide DeleteFrom, FindOne, Between;
    var rest, stop := DeleteFrom(t, b), StopFrom(t, c, b - 1, start);
    AllBelow(t, b);
    RollbackIs(rest, c, b - 1, start);
    StopDeleted(t, c, b, b - 1, start);
    DeleteTwice(t, b, stop + 1);
    Deleted(rest, c, b, stop);
    StoredAt(t, b, stop, |c|);
  }

  lemma AllBelow(t: Table, b: int)
    ensures forall r :: r in DeleteFrom(t, b) ==> r.blockNumber < b
  {
    DeleteFromKeeps(t, b);
  }

  lemma Deleted(rest: Table, c: Chain, b: int, stop: int)
    requires b <= |c| && forall r :: r in rest ==> r.blockNumber < b
    ensures !Between(rest, stop, |c|) ==> DeleteFrom(rest, stop + 1) == rest
  {
    if !Between(rest, stop, |c|) {
      DeleteNothing(rest, stop + 1);
    }
  }

  lemma StoredAt(t: Table, b: int, lo: int, hi: int)
    requires FindOne(t, b).Some? && lo < b < hi
    ensures Between(t, lo, hi)
  {
  }

  /** Where the rollback of a poll stops and what it leaves, for any table. */
  lemma {:induction false} RolledIs(t: Table, c: Chain, start: nat)
    ensures Rolled(t, c, start) == (Stop(t, c, start), Left(t, c, start))
  {
    hide DeleteFrom, FindOne;
    if t != [] {
      var top := HighestIsMax(t);
      RollbackIs(t, c, Highest(t), start);
    }
  }

  // ---------------------------------------------------------------- which rows come back

  lemma NoClashRest(rows: seq<Row>)
    requires rows != [] && NoClash(rows)
    ensures rows == [rows[0]] + rows[1..] && NoClash(rows[1..])
    ensures forall r :: r in rows[1..] ==> !Clash(rows[0], r)
  {
    hide Clash;
    assert forall i, j :: 0 <= i < j < |rows[1..]| ==> rows[1..][i] == rows[i + 1] && rows[1..][j] == rows[j + 1];
    assert forall j :: 0 <= j < |rows[1..]| ==> rows[1..][j] == rows[j + 1];
  }

  /** Of rows without clashes among them, exactly those are inserted that clash with none before. */
  lemma {:induction false} InsertAllHas(t: Table, rows: seq<Row>, r: Row)
    requires NoClash(rows)
    ensures r in InsertAll(t, rows) <==> r in t || (r in rows && forall s :: s in t ==> !Clash(s, r))
    decreases rows
  {
    hide NoClash;
    if rows != [] {
      NoClashRest(rows);
      InsertAllHas(Insert(t, rows[0]), rows[1..], r);
      assert forall s :: s in t ==> s in Insert(t, rows[0]);
    }
  }

  /** A poll that reaches a block inserts what is left of the range above where its rollback stopped. */
  lemma PollInserts(t: Table, cfg: Config, c: Chain)
    requires cfg.batch > 0 && SafeTo(cfg, c) >= 0
    ensures var (lastSafe, kept) := Rolled(t, c, cfg.start);
      Poll(t, cfg, c) == InsertAll(kept, RowsIn(cfg.filter, c, lastSafe + 1, SafeTo(cfg, c) + 1))
  {
    hide Rolled, RowsIn, InsertAll;
    RolledStops(t, c, cfg.start);
    var (lastSafe, kept) := Rolled(t, c, cfg.start);
    ScanIgnoresBatches(kept, cfg.filter, c, lastSafe + 1, SafeTo(cfg, c), cfg.batch);
  }

  lemma RowsAbove(f: Filter, c: Chain, start: nat, mid: int, hi: int, r: Row)
    requires start <= mid && r in RowsIn(f, c, start, hi)
    ensures r in RowsIn(f, c, mid, hi) <==> r.blockNumber >= mid
  {
    RowsInRange(f, c, mid, hi);
    if mid <= hi {
      RowsInSplit(f, c, start, mid, hi);
      RowsInRange(f, c, start, mid);
    } else {
      RowsInRange(f, c, start, hi);
    }
  }

  /** What a poll finds when it inserts: the rows that its rollback left. */
  lemma RowReturns(t: Table, cfg: Config, c: Chain, r: Row)
    requires cfg.batch > 0 && SafeTo(cfg, c) >= 0 && DistinctLogs(cfg.filter, c)
    requires r in RowsIn(cfg.filter, c, cfg.start, SafeTo(cfg, c) + 1)
    ensures var (lastSafe, kept) := Rolled(t, c, cfg.start);
      r in Poll(t, cfg, c) <==>
      r in kept || (r.blockNumber > lastSafe && forall s :: s in kept ==> !Clash(s, r))
  {
    hide Rolled, RowsIn, InsertAll, Poll, NoClash, Clash;
    RolledStops(t, c, cfg.start);
    PollInserts(t, cfg, c);
    var (lastSafe, kept) := Rolled(t, c, cfg.start);
    var lo, hi := lastSafe + 1, SafeTo(cfg, c) + 1;
    RowsAbove(cfg.filter, c, cfg.start, lo, hi, r);
    if lo <= hi {
      DistinctInRange(cfg.filter, c, lo, hi);
      InsertAllHas(kept, RowsIn(cfg.filter, c, lo, hi), r);
    } else {
      RowsInNone(cfg.filter, c, lo, hi);
      InsertNone(kept);
    }
  }

  /** The row is one that a rollback leaves. */
  ghost predicate Stays(t: Table, c: Chain, start: nat, s: Row) {
    s in t && (s.blockNumber <= Stop(t, c, start) || !Reorganised(t, c, start))
  }

  lemma LeftHas(t: Table, c: Chain, start: nat, s: Row)
    ensures s in Left(t, c, start) <==> Stays(t, c, start, s)
  {
    DeleteFromKeeps(t, Stop(t, c, start) + 1);
  }

  /**
    Whatever the table, a row of the chain's range is in it after a poll if and only if: up to the highest stored
    block that is still on the chain, it was there before; above it, no row that the rollback leaves has its key.
  */
  lemma RowReturnsIff(t: Table, cfg: Config, c: Chain, r: Row)
    requires cfg.batch > 0 && SafeTo(cfg, c) >= 0 && DistinctLogs(cfg.filter, c)
    requires r in RowsIn(cfg.filter, c, cfg.start, SafeTo(cfg, c) + 1)
    ensures r in Poll(t, cfg, c) <==>
      if r.blockNumber <= Stop(t, c, cfg.start) then r in t
      else forall s :: s in t && Clash(s, r) ==> !Stays(t, c, cfg.start, s)
  {
    hide Rolled, RowsIn, InsertAll, Poll, NoClash, Clash, Left, Stop;
    RolledIs(t, c, cfg.start);
    RowReturns(t, cfg, c, r);
    RowsInRange(cfg.filter, c, cfg.start, SafeTo(cfg, c) + 1);
    assert RowOf(r, c, cfg.start, SafeTo(cfg, c) + 1);
    forall s ensures s in Left(t, c, cfg.start) <==> Stays(t, c, cfg.start, s) {
      LeftHas(t, c, cfg.start, s);
    }
  }

  /**
    A row above the head that a poll does not heal keeps out of the table the same log mined again in a lower
    block: the unique key is taken.
  */
  lemma StaleRowBlocks(t: Table, cfg: Config, c: Chain, stale: Row, r: Row)
    requires cfg.batch > 0 && SafeTo(cfg, c) >= 0 && DistinctLogs(cfg.filter, c)
    requires (forall s :: s in t ==> s.blockNumber >= cfg.start) && !Heals(t, c)
    requires stale in t && Clash(stale, r) && r !in t
    requires r in RowsIn(cfg.filter, c, cfg.start, SafeTo(cfg, c) + 1)
    ensures r !in Poll(t, cfg, c)
  {
    hide Rolled, RowsIn, InsertAll, Poll, NoClash, Heals, Clash;
    assert t != [];
    RolledKeeps(t, c, cfg.start);
    RowReturns(t, cfg, c, r);
  }

  /** Each poll of the run stops its rollback at or above the block. */
  ghost predicate StopsAbove(t: Table, cfg: Config, chains: seq<Chain>, b: nat)
    requires cfg.batch > 0
  {
    forall k :: 0 <= k < |chains| && SafeTo(cfg, chains[k]) >= 0 ==>
      Stop(Run(t, cfg, chains[..k]), chains[k], cfg.start) >= b
  }

  /** A row that is missing stays missing until a rollback stops below its block, however many polls heal their tables. */
  lemma {:induction false} MissingStays(t: Table, cfg: Config, chains: seq<Chain>, r: Row)
    requires cfg.batch > 0 && r !in t && StopsAbove(t, cfg, chains, r.blockNumber)
    ensures r !in Run(t, cfg, chains)
  {
    hide Poll, Stop, RowsIn, InsertAll;
    if chains != [] {
      var front, c := chains[..|chains| - 1], chains[|chains| - 1];
      assert forall k :: 0 <= k < |front| ==> front[..k] == chains[..k];
      MissingStays(t, cfg, front, r);
      MissingAfter(Run(t, cfg, front), cfg, c, r);
    }
  }

  lemma MissingAfter(t: Table, cfg: Config, c: Chain, r: Row)
    requires cfg.batch > 0 && r !in t
    requires SafeTo(cfg, c) >= 0 ==> r.blockNumber <= Stop(t, c, cfg.start)
    ensures r !in Poll(t, cfg, c)
  {
    hide Rolled, RowsIn, InsertAll, Stop, Left;
    if SafeTo(cfg, c) >= 0 {
      RolledIs(t, c, cfg.start);
      PollInserts(t, cfg, c);
      RolledStops(t, c, cfg.start);
      var (lastSafe, kept) := Rolled(t, c, cfg.start);
      RowsInRange(cfg.filter, c, lastSafe + 1, SafeTo(cfg, c) + 1);
      InsertAllFrom(kept, RowsIn(cfg.filter, c, lastSafe + 1, SafeTo(cfg, c) + 1), r);
    }
  }

  lemma {:induction false} InsertAllFrom(t: Table, rows: seq<Row>, r: Row)
    ensures r in InsertAll(t, rows) ==> r in t || r in rows
    decreases rows
  {
    if rows != [] {
      InsertAllFrom(Insert(t, rows[0]), rows[1..], r);
      assert rows == [rows[0]] + rows[1..];
    }
  }

  // ---------------------------------------------------------------- when a poll repairs a table

  /** A prefix of the rows of a chain with no row in between cuts them at a block. */
  lemma PrefixCuts(kept: Table, f: Filter, c: Chain, start: nat, lastSafe: int, hi: int)
    requires start - 1 <= lastSafe < hi && kept <= RowsIn(f, c, start, hi)
    requires forall r :: r in kept && r.blockNumber > lastSafe ==> r.blockNumber >= |c|
    ensures kept <= RowsIn(f, c, start, lastSafe + 1)
  {
    hide RowsIn;
    var all, low, high := RowsIn(f, c, start, hi), RowsIn(f, c, start, lastSafe + 1), RowsIn(f, c, lastSafe + 1, hi);
    RowsInSplit(f, c, start, lastSafe + 1, hi);
    if |kept| > |low| {
      var r := kept[|low|];
      assert r == all[|low|] == high[0] && r in kept && r in high;
      RowsInRange(f, c, lastSafe + 1, hi);
      assert false;
    }
  }

  /** A poll leaves exactly the chain's logs if and only if its rollback left exactly those up to where it stopped. */
  lemma RepairsKept(t: Table, cfg: Config, c: Chain)
    requires cfg.batch > 0 && SafeTo(cfg, c) >= 0 && DistinctLogs(cfg.filter, c)
    ensures var (lastSafe, kept) := Rolled(t, c, cfg.start);
      Holds(Poll(t, cfg, c), cfg.filter, c, cfg.start, Mark(t, cfg, c) + 1)
      <==> Holds(kept, cfg.filter, c, cfg.start, lastSafe + 1)
  {
    hide Rolled, RowsIn, InsertAll, NoClash;
    RolledStops(t, c, cfg.start);
    PollInserts(t, cfg, c);
    var (lastSafe, kept) := Rolled(t, c, cfg.start);
    var f, start, safeTo := cfg.filter, cfg.start, SafeTo(cfg, c);
    if Holds(kept, f, c, start, lastSafe + 1) {
      ScanExact(kept, f, c, start, lastSafe, safeTo, cfg.batch);
    } else if lastSafe < safeTo {
      InsertAllKeeps(kept, RowsIn(f, c, lastSafe + 1, safeTo + 1));
      if Poll(t, cfg, c) == RowsIn(f, c, start, safeTo + 1) {
        PrefixCuts(kept, f, c, start, lastSafe, safeTo + 1);
        NothingBetween(kept, f, c, start, lastSafe, safeTo);
      }
    } else {
      RowsInNone(f, c, lastSafe + 1, safeTo + 1);
      InsertNone(kept);
    }
  }

  /**
    Whatever the table, and however it came about, a poll leaves it equal to the chain's logs if and only if its
    rows up to the highest stored block that is still on the chain are the chain's, and it has no row above the
    head or some block in between was reorganised.
  */
  lemma RepairsIff(t: Table, cfg: Config, c: Chain)
    requires cfg.batch > 0 && SafeTo(cfg, c) >= 0 && DistinctLogs(cfg.filter, c)
    ensures var stop := Stop(t, c, cfg.start);
      Holds(Poll(t, cfg, c), cfg.filter, c, cfg.start, Mark(t, cfg, c) + 1)
      <==> Holds(DeleteFrom(t, stop + 1), cfg.filter, c, cfg.start, stop + 1)
           && ((forall r :: r in t ==> r.blockNumber < |c|) || Reorganised(t, c, cfg.start))
  {
    hide Rolled, RowsIn, InsertAll, NoClash, Poll, Mark;
    RolledIs(t, c, cfg.start);
    RepairsKept(t, cfg, c);
    LeftHolds(t, cfg.filter, c, cfg.start);
  }

  lemma LeftHolds(t: Table, f: Filter, c: Chain, start: nat)
    ensures var stop := Stop(t, c, start);
      Holds(Left(t, c, start), f, c, start, stop + 1)
      <==> Holds(DeleteFrom(t, stop + 1), f, c, start, stop + 1)
           && ((forall r :: r in t ==> r.blockNumber < |c|) || Reorganised(t, c, start))
  {
    hide RowsIn, DeleteFrom;
    var stop := Stop(t, c, start);
    RowsInRange(f, c, start, stop + 1);
    DeleteFromKeeps(t, stop + 1);
    if !Reorganised(t, c, start) {
      if forall r :: r in t ==> r.blockNumber <= stop {
        DeleteNothing(t, stop + 1);
      }
    }
  }

  /** Inserting the rows above a block adds none up to it. */
  lemma NothingBetween(kept: Table, f: Filter, c: Chain, start: nat, lastSafe: int, safeTo: int)
    requires start - 1 <= lastSafe < safeTo
    requires InsertAll(kept, RowsIn(f, c, lastSafe + 1, safeTo + 1)) == RowsIn(f, c, start, safeTo + 1)
    requires kept <= RowsIn(f, c, start, lastSafe + 1)
    ensures kept == RowsIn(f, c, start, lastSafe + 1)
  {
    hide RowsIn, InsertAll;
    var low, high := RowsIn(f, c, start, lastSafe + 1), RowsIn(f, c, lastSafe + 1, safeTo + 1);
    RowsInSplit(f, c, start, lastSafe + 1, safeTo + 1);
    InsertAllTail(kept, high);
    RowsInRange(f, c, lastSafe + 1, safeTo + 1);
    RowsInRange(f, c, start, lastSafe + 1);
    assert |kept| < |low| ==> low[|kept|] in low && (low + high)[|kept|] == low[|kept|];
  }

  /** What comes after the kept rows was inserted. */
  lemma {:induction false} InsertAllTail(t: Table, rows: seq<Row>)
    ensures t <= InsertAll(t, rows)
    ensures forall k :: |t| <= k < |InsertAll(t, rows)| ==> InsertAll(t, rows)[k] in rows
    decreases rows
  {
    if rows != [] {
      InsertAllTail(Insert(t, rows[0]), rows[1..]);
      assert rows == [rows[0]] + rows[1..];
    }
  }
}
