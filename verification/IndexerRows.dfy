/**
  What the polls of src/indexer/indexer.service.ts store, in terms of the chain, the configured numbers and the
  logs' own fields alone.
*/
module IndexerRows {
  import opened Wrappers
  import opened Indexer
  import opened IndexerRepair

  // ---------------------------------------------------------------- the rows of a chain

  /** The log has the configured address and first topic, where they are configured. */
  predicate Wanted(f: Filter, l: Log) {
    (f.address == None || f.address == Some(l.address)) && (f.topic0 == None || f.topic0 == l.topic0)
  }

  /** The rows of the wanted logs of one block, in their order. */
  function WantedRows(f: Filter, logs: seq<Log>, b: nat, hash: Word): seq<Row> {
    if logs == [] then []
    else (if Wanted(f, logs[0]) then [Row(logs[0], b, hash)] else []) + WantedRows(f, logs[1..], b, hash)
  }

  /** The rows of the wanted logs of the blocks from lo up to but not including hi, block after block. */
  function RowsFrom(f: Filter, c: Chain, lo: nat, hi: int): seq<Row>
    decreases hi - lo
  {
    if hi <= lo || lo >= |c| then [] else WantedRows(f, c[lo].logs, lo, c[lo].hash) + RowsFrom(f, c, lo + 1, hi)
  }

  lemma {:induction false} WantedMore(f: Filter, logs: seq<Log>, l: Log, b: nat, hash: Word)
    ensures WantedRows(f, logs + [l], b, hash)
         == WantedRows(f, logs, b, hash) + if Wanted(f, l) then [Row(l, b, hash)] else []
  {
    if logs == [] {
      assert [] + [l] == [l] && [l][1..] == [];
    } else {
      assert (logs + [l])[1..] == logs[1..] + [l];
      WantedMore(f, logs[1..], l, b, hash);
    }
  }

  lemma {:induction false} LogRowsAre(f: Filter, c: Chain, b: nat, logs: seq<Log>)
    requires b < |c|
    ensures LogRows(f, c, b, logs) == WantedRows(f, logs, b, c[b].hash)
  {
    if logs != [] {
      var front, last := logs[..|logs| - 1], logs[|logs| - 1];
      assert logs == front + [last];
      LogRowsAre(f, c, b, front);
      WantedMore(f, front, last, b, c[b].hash);
    }
  }

  lemma {:induction false} RowsFromMore(f: Filter, c: Chain, lo: nat, hi: nat)
    requires lo <= hi < |c|
    ensures RowsFrom(f, c, lo, hi + 1) == RowsFrom(f, c, lo, hi) + WantedRows(f, c[hi].logs, hi, c[hi].hash)
    decreases hi - lo
  {
    hide WantedRows;
    if lo < hi {
      RowsFromMore(f, c, lo + 1, hi);
    }
  }

  lemma {:induction false} RowsFromAbove(f: Filter, c: Chain, lo: nat, hi: int)
    requires hi >= |c|
    ensures RowsFrom(f, c, lo, hi + 1) == RowsFrom(f, c, lo, hi)
    decreases hi - lo
  {
    hide WantedRows;
    if lo < hi && lo < |c| {
      RowsFromAbove(f, c, lo + 1, hi);
    }
  }

  lemma {:induction false} RowsInAre(f: Filter, c: Chain, lo: nat, hi: int)
    ensures RowsIn(f, c, lo, hi) == RowsFrom(f, c, lo, hi)
    decreases hi - lo
  {
    hide WantedRows, LogRows;
    if lo < hi {
      RowsInAre(f, c, lo, hi - 1);
      if hi - 1 < |c| {
        LogRowsAre(f, c, hi - 1, c[hi - 1].logs);
        RowsFromMore(f, c, lo, hi - 1);
      } else {
        RowsFromAbove(f, c, lo, hi - 1);
        assert RowsIn(f, c, lo, hi - 1) + [] == RowsIn(f, c, lo, hi - 1);
      }
    }
  }

  /** The row is of a wanted log of a block of the chain from lo up to but not including hi. */
  ghost predicate Stored(r: Row, f: Filter, c: Chain, lo: int, hi: int) {
    && lo <= r.blockNumber < hi && r.blockNumber < |c|
    && r.blockHash == c[r.blockNumber].hash && r.log in c[r.blockNumber].logs && Wanted(f, r.log)
  }

  lemma {:induction false} WantedHas(f: Filter, logs: seq<Log>, b: nat, hash: Word, r: Row)
    ensures r in WantedRows(f, logs, b, hash) <==> r.blockNumber == b && r.blockHash == hash && r.log in logs && Wanted(f, r.log)
  {
    if logs != [] {
      WantedHas(f, logs[1..], b, hash, r);
      assert logs == [logs[0]] + logs[1..];
      assert r == Row(r.log, r.blockNumber, r.blockHash);
    }
  }

  lemma {:induction false} RowsFromHas(f: Filter, c: Chain, lo: nat, hi: int, r: Row)
    ensures r in RowsFrom(f, c, lo, hi) <==> Stored(r, f, c, lo, hi)
    decreases hi - lo
  {
    hide WantedRows, Wanted;
    if lo < hi && lo < |c| {
      RowsFromHas(f, c, lo + 1, hi, r);
      WantedHas(f, c[lo].logs, lo, c[lo].hash, r);
    }
  }

  // ---------------------------------------------------------------- one poll

  /**
    Whatever the table: every row that a poll adds is of a wanted log of the chain, in a block from the start
    block on that has the configured number of confirmations.
  */
  lemma PollAdds(t: Table, cfg: Config, c: Chain, r: Row)
    requires Ends(t, cfg, c) && r in Poll(t, cfg, c) && r !in t
    ensures Stored(r, cfg.filter, c, cfg.start, |c|)
    ensures r.blockNumber + cfg.confirmations <= |c| - 1
  {
    hide Rolled, RowsIn, InsertAll, Scan, Stored, RowsFrom;
    RolledStops(t, c, cfg.start);
    var (lastSafe, kept) := Rolled(t, c, cfg.start);
    var from, hi := Max(lastSafe + 1, cfg.start), |c| - cfg.confirmations;
    if from > hi - 1 {
      NothingScanned(kept, cfg, c, from);
    } else {
      ScanIgnoresBatches(kept, cfg.filter, c, from, hi - 1, cfg.batch);
      InsertAllFrom(kept, RowsIn(cfg.filter, c, from, hi), r);
      RowsInAre(cfg.filter, c, from, hi);
      RowsFromHas(cfg.filter, c, from, hi, r);
      StoredIn(r, cfg.filter, c, from, hi, cfg.start);
    }
  }

  lemma StoredIn(r: Row, f: Filter, c: Chain, lo: int, hi: int, start: int)
    requires Stored(r, f, c, lo, hi) && start <= lo && hi <= |c|
    ensures Stored(r, f, c, start, |c|) && r.blockNumber < hi
  {
  }

  lemma NothingScanned(kept: Table, cfg: Config, c: Chain, from: int)
    requires from > SafeTo(cfg, c)
    ensures Scan(kept, cfg.filter, c, from, SafeTo(cfg, c), cfg.batch) == kept
  {
  }

  /**
    After a poll that heals its table, when some block has the configured number of confirmations: the table is the
    rows of the wanted logs of the chain, block after block, from the start block to a block with no fewer than
    the last confirmed one; and a confirmed log is stored if and only if it is wanted.
  */
  lemma PollStores(t: Table, cfg: Config, d: Chain, c: Chain, hw: nat) returns (hi: int)
    requires cfg.batch > 0 && Linked(c, d) && DistinctLogs(cfg.filter, c)
    requires Holds(t, cfg.filter, d, cfg.start, hw) && Heals(t, c)
    requires |c| - 1 >= cfg.confirmations
    ensures Poll(t, cfg, c) == RowsFrom(cfg.filter, c, cfg.start, hi) && hi >= |c| - cfg.confirmations
    ensures forall b: nat, l :: cfg.start <= b <= |c| - 1 - cfg.confirmations && l in c[b].logs ==>
      (Row(l, b, c[b].hash) in Poll(t, cfg, c) <==> Wanted(cfg.filter, l))
  {
    hide Rolled, RowsIn, Poll, RowsFrom, Heals, Linked, Wanted;
    PollExact(t, cfg, d, c, hw);
    hi := Mark(t, cfg, c) + 1;
    RowsInAre(cfg.filter, c, cfg.start, hi);
    forall b: nat, l | cfg.start <= b <= |c| - 1 - cfg.confirmations && l in c[b].logs
      ensures Row(l, b, c[b].hash) in Poll(t, cfg, c) <==> Wanted(cfg.filter, l)
    {
      RowsFromHas(cfg.filter, c, cfg.start, hi, Row(l, b, c[b].hash));
    }
  }

  /**
    A poll comes to an end if and only if nothing has the configured number of confirmations, or its loop does: from
    the block after the last one kept, or from the start block, to the last confirmed one.
  */
  lemma PollEndsIff(t: Table, cfg: Config, c: Chain)
    ensures var kept, safeTo := Rolled(t, c, cfg.start).0, |c| - 1 - cfg.confirmations;
      var from := if kept < cfg.start then cfg.start else kept + 1;
      Ends(t, cfg, c) <==> safeTo < 0 || exists n :: Turns(from, safeTo, cfg.batch, n) > safeTo
  {
    hide Rolled, Turns;
    var kept := Rolled(t, c, cfg.start).0;
    ScanEndsIff(if kept < cfg.start then cfg.start else kept + 1, |c| - 1 - cfg.confirmations, cfg.batch);
  }

  // ---------------------------------------------------------------- whole runs

  /**
    In every run of healing polls from the empty table, whatever chains they see: when the last of them has a
    confirmed block, a confirmed log of its chain is stored if and only if it is wanted.
  */
  lemma RunStores(digest: Digest, cfg: Config, chains: seq<Chain>)
    requires cfg.batch > 0 && CollisionFree(digest) && chains != []
    requires forall c :: c in chains ==> Sealed(digest, c) && DistinctLogs(cfg.filter, c)
    requires Healing([], cfg, chains) && |chains[|chains| - 1]| - 1 >= cfg.confirmations
    ensures var c := chains[|chains| - 1];
      forall b: nat, l :: cfg.start <= b <= |c| - 1 - cfg.confirmations && l in c[b].logs ==>
        (Row(l, b, c[b].hash) in Run([], cfg, chains) <==> Wanted(cfg.filter, l))
  {
    hide Poll, RowsIn, Linked, Sealed, NoClash, Wanted, Heals;
    var prefix, c := chains[..|chains| - 1], chains[|chains| - 1];
    assert c in chains && forall k :: 0 <= k < |prefix| ==> prefix[k] == chains[k];
    HealingPrefix(cfg, chains);
    var d, hw := RunExact(digest, cfg, prefix);
    SealedLinked(digest, c, d);
    var hi := PollStores(Run([], cfg, prefix), cfg, d, c, hw);
  }

  lemma HealingPrefix(cfg: Config, chains: seq<Chain>)
    requires cfg.batch > 0 && chains != [] && Healing([], cfg, chains)
    ensures var prefix := chains[..|chains| - 1];
      && Healing([], cfg, prefix)
      && (SafeTo(cfg, chains[|chains| - 1]) >= 0 ==> Heals(Run([], cfg, prefix), chains[|chains| - 1]))
  {
    hide Heals, Run;
    var prefix := chains[..|chains| - 1];
    forall k | 0 <= k < |prefix| && SafeTo(cfg, prefix[k]) >= 0 ensures Heals(Run([], cfg, prefix[..k]), prefix[k]) {
      assert prefix[..k] == chains[..k];
    }
  }

  // ---------------------------------------------------------------- the unique key

  /** The two rows have one transaction, one index in it, one address and one first topic, and a first topic at all. */
  predicate SameKey(r: Row, s: Row) {
    && (r.log.txHash, r.log.logIndex, r.log.address, r.log.topic0) == (s.log.txHash, s.log.logIndex, s.log.address, s.log.topic0)
    && r.log.topic0 != None
  }

  ghost predicate KeysUnique(t: Table) {
    forall i, j :: 0 <= i < j < |t| ==> !SameKey(t[i], t[j])
  }

  /** Storing keeps the key unique, keeps what was there, and leaves a row out only if its key is taken. */
  lemma {:induction false} StoreKeys(t: Table, rows: seq<Row>)
    ensures KeysUnique(t) ==> KeysUnique(InsertAll(t, rows))
    ensures t <= InsertAll(t, rows)
    ensures forall r :: r in rows ==> r in InsertAll(t, rows) || exists s :: s in InsertAll(t, rows) && SameKey(s, r)
    decreases rows
  {
    if rows != [] {
      var next := Insert(t, rows[0]);
      InsertKeys(t, rows[0]);
      StoreKeys(next, rows[1..]);
      assert rows == [rows[0]] + rows[1..];
      assert forall s :: s in next ==> s in InsertAll(next, rows[1..]);
    }
  }

  lemma InsertKeys(t: Table, r: Row)
    ensures KeysUnique(t) ==> KeysUnique(Insert(t, r))
    ensures t <= Insert(t, r)
    ensures r in Insert(t, r) || exists s :: s in t && SameKey(s, r)
  {
    if forall s :: s in t ==> !Clash(s, r) {
      assert forall i :: 0 <= i < |t| ==> t[i] in t;
    }
  }

  /** However chains change, no two rows of the table ever have one key. */
  lemma {:induction false} RunKeys(cfg: Config, chains: seq<Chain>)
    requires cfg.batch > 0
    ensures KeysUnique(Run([], cfg, chains))
  {
    hide Poll, KeysUnique;
    if chains == [] {
      NoKeys();
    } else {
      RunKeys(cfg, chains[..|chains| - 1]);
      PollKeys(Run([], cfg, chains[..|chains| - 1]), cfg, chains[|chains| - 1]);
    }
  }

  lemma NoKeys()
    ensures KeysUnique([])
  {
  }

  lemma PollKeys(t: Table, cfg: Config, c: Chain)
    requires cfg.batch > 0 && KeysUnique(t)
    ensures KeysUnique(Poll(t, cfg, c))
  {
    hide KeysUnique, Rolled, RowsIn, InsertAll;
    if SafeTo(cfg, c) >= 0 {
      PollInserts(t, cfg, c);
      RolledIs(t, c, cfg.start);
      DeletedKeys(t, Stop(t, c, cfg.start) + 1);
      StoreKeys(Rolled(t, c, cfg.start).1, RowsIn(cfg.filter, c, Rolled(t, c, cfg.start).0 + 1, SafeTo(cfg, c) + 1));
    }
  }

  lemma {:induction false} DeletedKeys(t: Table, b: int)
    requires KeysUnique(t)
    ensures KeysUnique(DeleteFrom(t, b))
  {
    if t != [] {
      var front, last := t[..|t| - 1], t[|t| - 1];
      assert forall i :: 0 <= i < |front| ==> front[i] == t[i];
      DeletedKeys(front, b);
      DeleteFromKeeps(front, b);
      forall s | s in DeleteFrom(front, b) ensures !SameKey(s, last) {
        var i :| 0 <= i < |front| && front[i] == s;
      }
    }
  }
}
