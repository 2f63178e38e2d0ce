/**
  The reorg-aware block indexer of src/indexer/indexer.service.ts.

  A chain is a sequence of sealed blocks, the stored table is the sequence of its rows in
  insertion order, and one poll is a rollback followed by a batched rescan. The theorems say
  when the table agrees with the canonical chain after arbitrary reorganisations.
*/
module Indexer {
  import opened Wrappers

  /** A hash, an address, a topic or a log's payload: a machine word, only ever compared. */
  type Word = int

  datatype Log = Log(txHash: Word, logIndex: nat, address: Word, topic0: Option<Word>, data: Word)

  datatype Block = Block(hash: Word, logs: seq<Log>)

  /** The block at height b of a chain is c[b]; the head is the last one. */
  type Chain = seq<Block>

  /** Block hashing, left uninterpreted: parent hash and contents to hash. */
  type Digest = (Word, seq<Log>) -> Word

  datatype Filter = Filter(address: Option<Word>, topic0: Option<Word>)

  datatype Config = Config(confirmations: nat, start: nat, filter: Filter, batch: int)

  datatype Row = Row(log: Log, blockNumber: nat, blockHash: Word)

  type Table = seq<Row>

  // ---------------------------------------------------------------- the chain

  function ParentHash(c: Chain, b: nat): Word
    requires b < |c|
  {
    if b == 0 then 0 else c[b - 1].hash
  }

  ghost predicate CollisionFree(digest: Digest) {
    forall p, l, p', l' :: digest(p, l) == digest(p', l') ==> p == p' && l == l'
  }

  ghost predicate Sealed(digest: Digest, c: Chain) {
    forall b :: 0 <= b < |c| ==> SealedAt(digest, c, b)
  }

  ghost predicate SealedAt(digest: Digest, c: Chain, b: nat)
    requires b < |c|
  {
    c[b].hash == digest(ParentHash(c, b), c[b].logs)
  }

  /** Two chains with the same hash at height b share everything up to b. */
  lemma {:induction false} SameHashSamePrefix(digest: Digest, c: Chain, d: Chain, b: nat)
    requires CollisionFree(digest) && Sealed(digest, c) && Sealed(digest, d)
    requires b < |c| && b < |d| && c[b].hash == d[b].hash
    ensures c[..b + 1] == d[..b + 1]
  {
    assert SealedAt(digest, c, b) && SealedAt(digest, d, b);
    if b > 0 {
      SameHashSamePrefix(digest, c, d, b - 1);
    }
    assert c[..b + 1] == c[..b] + [c[b]] && d[..b + 1] == d[..b] + [d[b]];
  }

  /** Wherever two chains show the same hash they agree on everything below. */
  ghost predicate Linked(c: Chain, d: Chain) {
    forall b: nat :: LinkedAt(c, d, b)
  }

  ghost predicate LinkedAt(c: Chain, d: Chain, b: nat) {
    b < |c| && b < |d| && c[b].hash == d[b].hash ==> c[..b + 1] == d[..b + 1]
  }

  lemma SealedLinked(digest: Digest, c: Chain, d: Chain)
    requires CollisionFree(digest) && Sealed(digest, c) && Sealed(digest, d)
    ensures Linked(c, d)
  {
    forall b: nat ensures LinkedAt(c, d, b) {
      if b < |c| && b < |d| && c[b].hash == d[b].hash {
        SameHashSamePrefix(digest, c, d, b);
      }
    }
  }

  predicate Matches(f: Filter, l: Log) {
    && (f.address.Some? ==> l.address == f.address.value)
    && (f.topic0.Some? ==> l.topic0 == f.topic0)
  }

  /** The rows of the given logs, all found in block b. */
  function LogRows(f: Filter, c: Chain, b: nat, logs: seq<Log>): Table
    requires b < |c|
  {
    if logs == [] then []
    else
      var rest := LogRows(f, c, b, logs[..|logs| - 1]);
      var last := logs[|logs| - 1];
      if Matches(f, last) then rest + [Row(last, b, c[b].hash)] else rest
  }

  /** The rows a chain holds in the blocks lo <= b < hi, lowest block first. */
  function RowsIn(f: Filter, c: Chain, lo: int, hi: int): Table
    decreases hi - lo
  {
    if hi <= lo then []
    else
      RowsIn(f, c, lo, hi - 1) + (if 0 <= hi - 1 < |c| then LogRows(f, c, hi - 1, c[hi - 1].logs) else [])
  }

  // ---------------------------------------------------------------- the table

  /** The unique index on (txHash, logIndex, address, topic0); a null topic never clashes. */
  predicate Clash(r: Row, s: Row) {
    && r.log.txHash == s.log.txHash && r.log.logIndex == s.log.logIndex
    && r.log.address == s.log.address && r.log.topic0 == s.log.topic0 && r.log.topic0.Some?
  }

  function Insert(t: Table, r: Row): Table {
    if exists s :: s in t && Clash(s, r) then t else t + [r]
  }

  function InsertAll(t: Table, rows: seq<Row>): Table
    decreases rows
  {
    if rows == [] then t else InsertAll(Insert(t, rows[0]), rows[1..])
  }

  function DeleteFrom(t: Table, b: int): Table {
    if t == [] then []
    else
      var rest := DeleteFrom(t[..|t| - 1], b);
      if t[|t| - 1].blockNumber < b then rest + [t[|t| - 1]] else rest
  }

  function FindOne(t: Table, b: int): (r: Option<Row>)
    ensures r.Some? ==> r.value in t && r.value.blockNumber == b
    ensures r.None? ==> forall s :: s in t ==> s.blockNumber != b
  {
    if t == [] then None
    else if t[0].blockNumber == b then Some(t[0])
    else FindOne(t[1..], b)
  }

  function MaxBlock(t: Table): Option<nat> {
    if t == [] then None else Some(Highest(t))
  }

  /** Some row has this block number and none has a higher one. */
  ghost predicate IsHighest(b: nat, t: Table) {
    (exists r :: r in t && r.blockNumber == b) && forall r :: r in t ==> r.blockNumber <= b
  }

  function Highest(t: Table): nat
    requires t != []
  {
    var last := t[|t| - 1].blockNumber;
    if |t| == 1 then last else Max(Highest(t[..|t| - 1]), last)
  }

  // ---------------------------------------------------------------- one poll, as functions

  /** The downward walk: the newest stored block still on chain, and what is left of the table. */
  function Rollback(t: Table, c: Chain, b: int, start: nat): (int, Table)
    decreases b + 1
  {
    if b < start then (start - 1, t)
    else
      match FindOne(t, b)
      case None => Rollback(t, c, b - 1, start)
      case Some(event) =>
        if b >= |c| then Rollback(t, c, b - 1, start)
        else if c[b].hash == event.blockHash then (b, t)
        else Rollback(DeleteFrom(t, b), c, b - 1, start)
  }

  function Scan(t: Table, f: Filter, c: Chain, from: int, safeTo: int, batch: int): Table
    requires batch > 0 || from > safeTo
    decreases safeTo + 1 - from
  {
    if from > safeTo then t
    else
      var to := Min(from + batch - 1, safeTo);
      Scan(InsertAll(t, RowsIn(f, c, from, to + 1)), f, c, to + 1, safeTo, batch)
  }

  function SafeTo(cfg: Config, c: Chain): int { |c| - 1 - cfg.confirmations }

  function Rolled(t: Table, c: Chain, start: nat): (int, Table) {
    match MaxBlock(t)
    case None => (start - 1, t)
    case Some(last) => Rollback(t, c, last, start)
  }

  /** The poll comes to an end: see ScanEndsIff. */
  predicate Ends(t: Table, cfg: Config, c: Chain) {
    cfg.batch > 0 || SafeTo(cfg, c) < 0 || Max(Rolled(t, c, cfg.start).0 + 1, cfg.start) > SafeTo(cfg, c)
  }

  function Poll(t: Table, cfg: Config, c: Chain): Table
    requires Ends(t, cfg, c)
  {
    if SafeTo(cfg, c) < 0 then t
    else
      var (lastSafe, kept) := Rolled(t, c, cfg.start);
      Scan(kept, cfg.filter, c, Max(lastSafe + 1, cfg.start), SafeTo(cfg, c), cfg.batch)
  }

  /** The last block the table speaks for after a poll. */
  function Mark(t: Table, cfg: Config, c: Chain): int {
    Max(Rolled(t, c, cfg.start).0, SafeTo(cfg, c))
  }

  /** Where the loop over batches stands after n turns; it stops beyond safeTo. */
  function Turns(from: int, safeTo: int, batch: int, n: nat): int
    decreases n
  {
    if n == 0 || from > safeTo then from else Turns(Min(from + batch - 1, safeTo) + 1, safeTo, batch, n - 1)
  }

  lemma {:induction false} TurnsStall(from: int, safeTo: int, batch: int, n: nat)
    requires batch <= 0 && from <= safeTo
    ensures Turns(from, safeTo, batch, n) <= safeTo
    decreases n
  {
    if n > 0 {
      TurnsStall(from + batch, safeTo, batch, n - 1);
    }
  }

  lemma {:induction false} TurnsEnd(from: int, safeTo: int, batch: int) returns (n: nat)
    requires batch > 0
    ensures Turns(from, safeTo, batch, n) > safeTo
    decreases safeTo + 1 - from
  {
    n := 0;
    if from <= safeTo {
      n := TurnsEnd(Min(from + batch - 1, safeTo) + 1, safeTo, batch);
      n := n + 1;
    }
  }

  /** The loop of a poll ends exactly when the configured batch size is positive or there is nothing to scan. */
  lemma ScanEndsIff(from: int, safeTo: int, batch: int)
    ensures (exists n :: Turns(from, safeTo, batch, n) > safeTo) <==> batch > 0 || from > safeTo
  {
    if from > safeTo {
      assert Turns(from, safeTo, batch, 0) > safeTo;
    } else if batch > 0 {
      var n := TurnsEnd(from, safeTo, batch);
    } else {
      forall n ensures Turns(from, safeTo, batch, n) <= safeTo {
        TurnsStall(from, safeTo, batch, n);
      }
    }
  }

  // ---------------------------------------------------------------- the service

  class IndexerService {
    var indexedRepo: Table
    const cfg: Config

    constructor (cfg: Config)
      ensures this.cfg == cfg && indexedRepo == []
    {
      this.cfg := cfg;
      indexedRepo := [];
    }

    method GetLastIndexedBlock() returns (last: Option<nat>)
      ensures last.None? <==> indexedRepo == []
      ensures last.Some? ==> IsHighest(last.value, indexedRepo)
    {
      last := MaxBlock(indexedRepo);
      if indexedRepo != [] {
        var top := HighestIsMax(indexedRepo);
      }
    }

    method HandleReorgIfAny(lastBlock: Option<nat>, startBlock: nat, chain: Chain) returns (lastSafe: int)
      modifies this
      ensures (lastSafe, indexedRepo) ==
              if lastBlock.None? then (startBlock - 1, old(indexedRepo))
              else Rollback(old(indexedRepo), chain, lastBlock.value, startBlock)
    {
      if lastBlock.None? {
        return startBlock - 1;
      }
      var b: int := lastBlock.value;
      while b >= startBlock
        invariant b >= -1
        invariant Rollback(indexedRepo, chain, b, startBlock)
               == Rollback(old(indexedRepo), chain, lastBlock.value, startBlock)
      {
        var event := FindOne(indexedRepo, b);
        if event.None? {
          b := b - 1;
          continue;
        }
        if b >= |chain| {
          b := b - 1;
          continue;
        }
        if chain[b].hash == event.value.blockHash {
          return b;
        }
        indexedRepo := DeleteFrom(indexedRepo, b);
        b := b - 1;
      }
      return startBlock - 1;
    }

    method StoreLogs(logs: seq<Row>)
      modifies this
      ensures indexedRepo == InsertAll(old(indexedRepo), logs)
    {
      for i := 0 to |logs|
        invariant InsertAll(indexedRepo, logs[i..]) == InsertAll(old(indexedRepo), logs)
      {
        assert logs[i..][0] == logs[i] && logs[i..][1..] == logs[i + 1..];
        indexedRepo := Insert(indexedRepo, logs[i]);
      }
    }

    method RunOnce(chain: Chain)
      requires Ends(indexedRepo, cfg, chain)
      modifies this
      ensures indexedRepo == Poll(old(indexedRepo), cfg, chain)
    {
      hide Rollback, RowsIn, InsertAll;
      var safeTo := SafeTo(cfg, chain);
      if safeTo < 0 {
        return;
      }
      var lastIndexed := GetLastIndexedBlock();
      LastIsMax(lastIndexed, indexedRepo);
      var lastSafe := HandleReorgIfAny(lastIndexed, cfg.start, chain);
      var from := lastSafe + 1;
      if from < cfg.start {
        from := cfg.start;
      }
      if from > safeTo {
        return;
      }
      while from <= safeTo
        invariant Scan(indexedRepo, cfg.filter, chain, from, safeTo, cfg.batch) == Poll(old(indexedRepo), cfg, chain)
        decreases safeTo + 1 - from
      {
        var to := Min(from + cfg.batch - 1, safeTo);
        var logs := RowsIn(cfg.filter, chain, from, to + 1);
        StoreLogs(logs);
        from := to + 1;
      }
    }
  }

  // ---------------------------------------------------------------- rows of a chain

  lemma {:induction false} LogRowsAt(f: Filter, c: Chain, b: nat, logs: seq<Log>)
    requires b < |c|
    ensures forall r :: r in LogRows(f, c, b, logs) ==> r.blockNumber == b && r.blockHash == c[b].hash
  {
    if logs != [] {
      LogRowsAt(f, c, b, logs[..|logs| - 1]);
    }
  }

  /** Every row of a chain sits in the asked range and carries its block's hash. */
  ghost predicate RowOf(r: Row, c: Chain, lo: int, hi: int) {
    lo <= r.blockNumber < hi && r.blockNumber < |c| && r.blockHash == c[r.blockNumber].hash
  }

  lemma {:induction false} RowsInRange(f: Filter, c: Chain, lo: int, hi: int)
    ensures forall r :: r in RowsIn(f, c, lo, hi) ==> RowOf(r, c, lo, hi)
    decreases hi - lo
  {
    if lo < hi {
      RowsInRange(f, c, lo, hi - 1);
      if 0 <= hi - 1 < |c| {
        LogRowsAt(f, c, hi - 1, c[hi - 1].logs);
      }
    }
  }

  lemma {:induction false} DeleteFromKeeps(t: Table, b: int)
    ensures forall r :: r in DeleteFrom(t, b) <==> r in t && r.blockNumber < b
  {
    if t != [] {
      DeleteFromKeeps(t[..|t| - 1], b);
      assert t == t[..|t| - 1] + [t[|t| - 1]];
    }
  }

  lemma {:induction false} HighestIsMax(t: Table) returns (top: Row)
    requires t != []
    ensures top in t && top.blockNumber == Highest(t)
    ensures forall r :: r in t ==> r.blockNumber <= Highest(t)
  {
    top := t[|t| - 1];
    assert t == t[..|t| - 1] + [top];
    if |t| > 1 {
      var rest := HighestIsMax(t[..|t| - 1]);
      if rest.blockNumber > top.blockNumber {
        top := rest;
      }
    }
  }

  lemma LastIsMax(last: Option<nat>, t: Table)
    requires last.None? <==> t == []
    requires last.Some? ==> IsHighest(last.value, t)
    ensures last == MaxBlock(t)
  {
    if t != [] {
      var top := HighestIsMax(t);
    }
  }

  lemma {:induction false} RowsInSplit(f: Filter, c: Chain, lo: int, mid: int, hi: int)
    requires lo <= mid <= hi
    ensures RowsIn(f, c, lo, mid) + RowsIn(f, c, mid, hi) == RowsIn(f, c, lo, hi)
    decreases hi - mid
  {
    if mid < hi {
      RowsInSplit(f, c, lo, mid, hi - 1);
    }
  }

  lemma {:induction false} LogRowsAgree(f: Filter, c: Chain, d: Chain, b: nat, logs: seq<Log>)
    requires b < |c| && b < |d| && c[b].hash == d[b].hash
    ensures LogRows(f, c, b, logs) == LogRows(f, d, b, logs)
  {
    if logs != [] {
      LogRowsAgree(f, c, d, b, logs[..|logs| - 1]);
    }
  }

  /** Chains with a common prefix hold the same rows in it. */
  lemma {:induction false} RowsInAgree(f: Filter, c: Chain, d: Chain, lo: nat, hi: nat)
    requires hi <= |c| && hi <= |d| && c[..hi] == d[..hi]
    ensures RowsIn(f, c, lo, hi) == RowsIn(f, d, lo, hi)
    decreases hi
  {
    hide LogRows;
    if lo < hi {
      var b := hi - 1;
      assert c[b] == c[..hi][b] == d[b];
      assert c[..b] == c[..hi][..b] == d[..hi][..b] == d[..b];
      RowsInAgree(f, c, d, lo, b);
      LogRowsAgree(f, c, d, b, c[b].logs);
    }
  }

  lemma {:induction false} DeleteNothing(t: Table, b: int)
    requires forall r :: r in t ==> r.blockNumber < b
    ensures DeleteFrom(t, b) == t
  {
    if t != [] {
      assert t[|t| - 1] in t;
      DeleteNothing(t[..|t| - 1], b);
    }
  }

  lemma {:induction false} DeleteSuffix(t: Table, u: Table, b: int)
    requires forall r :: r in t ==> r.blockNumber < b
    requires forall r :: r in u ==> r.blockNumber >= b
    ensures DeleteFrom(t + u, b) == t
  {
    if u == [] {
      assert t + u == t;
      DeleteNothing(t, b);
    } else {
      assert u[|u| - 1] in u;
      assert (t + u)[..|t + u| - 1] == t + u[..|u| - 1];
      DeleteSuffix(t, u[..|u| - 1], b);
    }
  }

  /** Deleting from block b on cuts a chain's rows at b. */
  lemma DeleteCutsRows(f: Filter, d: Chain, lo: int, b: int, hi: int)
    requires lo <= b <= hi
    ensures DeleteFrom(RowsIn(f, d, lo, hi), b) == RowsIn(f, d, lo, b)
  {
    RowsInSplit(f, d, lo, b, hi);
    RowsInRange(f, d, lo, b);
    RowsInRange(f, d, b, hi);
    DeleteSuffix(RowsIn(f, d, lo, b), RowsIn(f, d, b, hi), b);
  }

  lemma HasMember(t: Table)
    requires t != []
    ensures exists r :: r in t
  {
    assert t[0] in t;
  }

  lemma NoRowsAbove(f: Filter, d: Chain, lo: int, mid: int, hi: int)
    requires lo <= mid <= hi
    requires forall r :: r in RowsIn(f, d, lo, hi) ==> r.blockNumber < mid
    ensures RowsIn(f, d, lo, hi) == RowsIn(f, d, lo, mid)
  {
    RowsInSplit(f, d, lo, mid, hi);
    RowsInRange(f, d, mid, hi);
    if RowsIn(f, d, mid, hi) != [] {
      HasMember(RowsIn(f, d, mid, hi));
    }
  }

  /** Rows stored for one block of one chain carry one hash, so which row findOne picks is immaterial. */
  lemma StoredHashesAgree(f: Filter, d: Chain, lo: nat, hi: nat, r: Row, s: Row)
    requires r in RowsIn(f, d, lo, hi) && s in RowsIn(f, d, lo, hi) && r.blockNumber == s.blockNumber
    ensures r.blockHash == s.blockHash
  {
    RowsInRange(f, d, lo, hi);
  }

  // ---------------------------------------------------------------- inserting

  ghost predicate NoClash(rows: seq<Row>) {
    forall i, j :: 0 <= i < j < |rows| ==> !Clash(rows[i], rows[j])
  }

  /** A transaction is mined once, so no two logs of one chain share the table's key. */
  ghost predicate DistinctLogs(f: Filter, c: Chain) {
    NoClash(RowsIn(f, c, 0, |c|))
  }

  lemma {:induction false} InsertAllAppends(t: Table, rows: seq<Row>)
    requires NoClash(t + rows)
    ensures InsertAll(t, rows) == t + rows
    decreases rows
  {
    if rows == [] {
      assert t + rows == t;
    } else {
      forall s | s in t ensures !Clash(s, rows[0]) {
        var i :| 0 <= i < |t| && t[i] == s;
        assert (t + rows)[i] == s && (t + rows)[|t|] == rows[0];
      }
      assert (t + [rows[0]]) + rows[1..] == t + rows;
      InsertAllAppends(t + [rows[0]], rows[1..]);
    }
  }

  lemma {:induction false} InsertAllKeeps(t: Table, rows: seq<Row>)
    ensures t <= InsertAll(t, rows)
    decreases rows
  {
    if rows != [] {
      InsertAllKeeps(Insert(t, rows[0]), rows[1..]);
    }
  }

  lemma {:induction false} InsertAllConcat(t: Table, u: seq<Row>, v: seq<Row>)
    ensures InsertAll(t, u + v) == InsertAll(InsertAll(t, u), v)
    decreases u
  {
    if u == [] {
      assert u + v == v;
    } else {
      assert (u + v)[1..] == u[1..] + v;
      InsertAllConcat(Insert(t, u[0]), u[1..], v);
    }
  }

  lemma InsertNone(t: Table)
    ensures InsertAll(t, []) == t
  {
  }

  /** The batched rescan inserts the rows of the whole range, whatever the batch size. */
  lemma {:induction false} ScanIgnoresBatches(t: Table, f: Filter, c: Chain, from: int, safeTo: int, batch: nat)
    requires batch > 0
    ensures Scan(t, f, c, from, safeTo, batch) == InsertAll(t, RowsIn(f, c, from, safeTo + 1))
    decreases safeTo + 1 - from
  {
    hide RowsIn, InsertAll;
    if from > safeTo {
      RowsInNone(f, c, from, safeTo + 1);
      InsertNone(t);
    } else {
      var to := Min(from + batch - 1, safeTo);
      var rows := RowsIn(f, c, from, to + 1);
      ScanIgnoresBatches(InsertAll(t, rows), f, c, to + 1, safeTo, batch);
      InsertAllConcat(t, rows, RowsIn(f, c, to + 1, safeTo + 1));
      RowsInSplit(f, c, from, to + 1, safeTo + 1);
    }
  }

  lemma BatchSizeImmaterial(t: Table, cfg: Config, batch: nat, c: Chain)
    requires cfg.batch > 0 && batch > 0
    ensures Poll(t, cfg, c) == Poll(t, cfg.(batch := batch), c)
  {
    hide Rollback, Scan, RowsIn, InsertAll;
    var (lastSafe, kept) := Rolled(t, c, cfg.start);
    var from := Max(lastSafe + 1, cfg.start);
    ScanIgnoresBatches(kept, cfg.filter, c, from, SafeTo(cfg, c), cfg.batch);
    ScanIgnoresBatches(kept, cfg.filter, c, from, SafeTo(cfg, c), batch);
  }

  // ---------------------------------------------------------------- one poll is exact

  /** The table is exactly what chain d holds in the blocks start <= b < hw. */
  ghost predicate Holds(t: Table, f: Filter, d: Chain, start: nat, hw: int) {
    t == RowsIn(f, d, start, hw)
  }

  lemma RowsInNone(f: Filter, c: Chain, lo: int, hi: int)
    requires hi <= lo
    ensures RowsIn(f, c, lo, hi) == []
  {
  }

  /** The walk down from b turns the old chain's rows into the new chain's, up to where it stops. */
  lemma {:induction false} RollbackExact(t: Table, f: Filter, d: Chain, c: Chain, b: int, start: nat)
    returns (lastSafe: int, kept: Table)
    requires Linked(c, d)
    requires start - 1 <= b && Holds(t, f, d, start, b + 1)
    requires forall r :: r in t ==> r.blockNumber < |c|
    ensures (lastSafe, kept) == Rollback(t, c, b, start)
    ensures start - 1 <= lastSafe <= b && Holds(kept, f, c, start, lastSafe + 1)
    decreases b + 1
  {
    hide RowsIn, DeleteFrom, FindOne;
    if b < start {
      RowsInNone(f, d, start, b + 1);
      RowsInNone(f, c, start, b + 1);
      return start - 1, t;
    }
    RowsInRange(f, d, start, b + 1);
    var event := FindOne(t, b);
    if event.None? {
      NoRowsAbove(f, d, start, b, b + 1);
      lastSafe, kept := RollbackExact(t, f, d, c, b - 1, start);
    } else {
      assert RowOf(event.value, d, start, b + 1);
      if c[b].hash == event.value.blockHash {
        assert LinkedAt(c, d, b);
        RowsInAgree(f, c, d, start, b + 1);
        lastSafe, kept := b, t;
      } else {
        DeleteCutsRows(f, d, start, b, b + 1);
        DeleteFromKeeps(t, b);
        lastSafe, kept := RollbackExact(DeleteFrom(t, b), f, d, c, b - 1, start);
      }
    }
  }

  /** While no stored block at or below b is on the new chain's range, the walk only descends. */
  lemma {:induction false} WalkSkips(t: Table, c: Chain, b: int, to: int, start: nat)
    requires start - 1 <= to <= b
    requires forall r :: r in t && to < r.blockNumber <= b ==> r.blockNumber >= |c|
    ensures Rollback(t, c, b, start) == Rollback(t, c, to, start)
    decreases b - to
  {
    if to < b {
      assert FindOne(t, b).Some? ==> b >= |c|;
      WalkSkips(t, c, b - 1, to, start);
    }
  }

  lemma RollbackDeletes(t: Table, c: Chain, b: nat, start: nat, r: Row)
    requires start <= b < |c| && r in t && r.blockNumber == b && r.blockHash != c[b].hash
    requires forall s :: s in t && s.blockNumber == b ==> s.blockHash == r.blockHash
    ensures Rollback(t, c, b, start) == Rollback(DeleteFrom(t, b), c, b - 1, start)
  {
    assert FindOne(t, b).Some?;
  }

  /** A stored row no lower than every other stored row that the new chain reaches. */
  ghost predicate TopReached(t: Table, c: Chain, r: Row) {
    r in t && r.blockNumber < |c| && forall s :: s in t && s.blockNumber < |c| ==> s.blockNumber <= r.blockNumber
  }

  /**
    What a poll needs of the table it finds: no row above the head, or else a reorganised
    topmost row at or below the head, whose deletion takes the rows above along.
  */
  ghost predicate Heals(t: Table, c: Chain) {
    || (forall r :: r in t ==> r.blockNumber < |c|)
    || (exists r :: TopReached(t, c, r) && r.blockHash != c[r.blockNumber].hash)
  }

  /** Rows above the head vanish when the topmost row below them is deleted as reorganised. */
  lemma RollbackThroughTop(t: Table, f: Filter, d: Chain, c: Chain, start: nat, hw: nat, last: nat, r: Row)
    returns (lastSafe: int, kept: Table)
    requires Linked(c, d) && Holds(t, f, d, start, hw)
    requires TopReached(t, c, r) && r.blockHash != c[r.blockNumber].hash
    requires start <= r.blockNumber <= last < hw
    ensures (lastSafe, kept) == Rollback(t, c, last, start)
    ensures start - 1 <= lastSafe && Holds(kept, f, c, start, lastSafe + 1)
  {
    var b: int := r.blockNumber;
    RowsInRange(f, d, start, hw);
    assert RowOf(r, d, start, hw);
    DeleteCutsRows(f, d, start, b, hw);
    DeleteFromKeeps(t, b);
    lastSafe, kept := RollbackExact(DeleteFrom(t, b), f, d, c, b - 1, start);
    WalkSkips(t, c, last, b, start);
    RollbackDeletes(t, c, b, start, r);
  }

  lemma RollbackFromHighest(t: Table, f: Filter, d: Chain, c: Chain, start: nat, hw: nat)
    returns (lastSafe: int, kept: Table)
    requires Linked(c, d) && Holds(t, f, d, start, hw) && Heals(t, c)
    requires t != [] && start <= Highest(t) < hw
    ensures (lastSafe, kept) == Rollback(t, c, Highest(t), start)
    ensures start - 1 <= lastSafe && Holds(kept, f, c, start, lastSafe + 1)
  {
    hide Rollback, RowsIn, Highest;
    var top := HighestIsMax(t);
    if Highest(t) < |c| {
      NoRowsAbove(f, d, start, Highest(t) + 1, hw);
      lastSafe, kept := RollbackExact(t, f, d, c, Highest(t), start);
    } else {
      var r :| TopReached(t, c, r) && r.blockHash != c[r.blockNumber].hash;
      RowsInRange(f, d, start, hw);
      assert RowOf(r, d, start, hw);
      lastSafe, kept := RollbackThroughTop(t, f, d, c, start, hw, Highest(t), r);
    }
  }

  /** The range the table speaks for after rolling back. */
  lemma RolledExact(t: Table, f: Filter, d: Chain, c: Chain, start: nat, hw: nat) returns (lastSafe: int, kept: Table)
    requires Linked(c, d) && Holds(t, f, d, start, hw) && Heals(t, c)
    ensures (lastSafe, kept) == Rolled(t, c, start)
    ensures start - 1 <= lastSafe && Holds(kept, f, c, start, lastSafe + 1)
  {
    if t == [] {
      lastSafe, kept := start - 1, t;
    } else {
      RowsInRange(f, d, start, hw);
      var top := HighestIsMax(t);
      assert RowOf(top, d, start, hw);
      lastSafe, kept := RollbackFromHighest(t, f, d, c, start, hw);
    }
  }

  lemma {:induction false} NoClashPart(a: seq<Row>, b: seq<Row>, c: seq<Row>)
    requires NoClash(a + b + c)
    ensures NoClash(b)
  {
    forall i, j | 0 <= i < j < |b| ensures !Clash(b[i], b[j]) {
      assert (a + b + c)[|a| + i] == b[i] && (a + b + c)[|a| + j] == b[j];
    }
  }

  lemma DistinctInRange(f: Filter, c: Chain, lo: nat, hi: nat)
    requires DistinctLogs(f, c) && lo <= hi <= |c|
    ensures NoClash(RowsIn(f, c, lo, hi))
  {
    RowsInSplit(f, c, 0, lo, hi);
    RowsInSplit(f, c, 0, hi, |c|);
    NoClashPart(RowsIn(f, c, 0, lo), RowsIn(f, c, lo, hi), RowsIn(f, c, hi, |c|));
  }

  lemma ScanNothing(t: Table, f: Filter, c: Chain, from: int, safeTo: int, batch: nat)
    requires batch > 0 && from > safeTo
    ensures Scan(t, f, c, from, safeTo, batch) == t
  {
  }

  /** Rescanning above a table that speaks for [start, lastSafe] extends it to safeTo. */
  lemma ScanExact(kept: Table, f: Filter, c: Chain, start: nat, lastSafe: int, safeTo: int, batch: nat)
    requires batch > 0 && DistinctLogs(f, c)
    requires start - 1 <= lastSafe && 0 <= safeTo < |c|
    requires Holds(kept, f, c, start, lastSafe + 1)
    ensures Holds(Scan(kept, f, c, lastSafe + 1, safeTo, batch), f, c, start, Max(lastSafe, safeTo) + 1)
  {
    hide Scan, RowsIn, InsertAll, NoClash;
    if lastSafe >= safeTo {
      ScanNothing(kept, f, c, lastSafe + 1, safeTo, batch);
    } else {
      ScanIgnoresBatches(kept, f, c, lastSafe + 1, safeTo, batch);
      RowsInSplit(f, c, start, lastSafe + 1, safeTo + 1);
      DistinctInRange(f, c, start, safeTo + 1);
      InsertAllAppends(kept, RowsIn(f, c, lastSafe + 1, safeTo + 1));
    }
  }

  /** After a poll the table holds exactly the current chain's logs from start up to the mark. */
  lemma PollExact(t: Table, cfg: Config, d: Chain, c: Chain, hw: nat)
    requires cfg.batch > 0 && Linked(c, d)
    requires DistinctLogs(cfg.filter, c)
    requires Holds(t, cfg.filter, d, cfg.start, hw) && Heals(t, c)
    requires SafeTo(cfg, c) >= 0
    ensures Holds(Poll(t, cfg, c), cfg.filter, c, cfg.start, Mark(t, cfg, c) + 1)
  {
    hide Rollback, Scan, RowsIn;
    var lastSafe, kept := RolledExact(t, cfg.filter, d, c, cfg.start, hw);
    ScanExact(kept, cfg.filter, c, cfg.start, lastSafe, SafeTo(cfg, c), cfg.batch);
  }

  /** A table whose topmost row in the chain's range is on chain is left alone by the rollback. */
  lemma RolledKeeps(t: Table, c: Chain, start: nat)
    requires t != [] && !Heals(t, c)
    requires forall r :: r in t ==> r.blockNumber >= start
    ensures Rolled(t, c, start).1 == t
  {
    var last := Highest(t);
    var highest := HighestIsMax(t);
    var below := DeleteFrom(t, |c|);
    DeleteFromKeeps(t, |c|);
    if below == [] {
      assert forall r :: r in t ==> r !in below;
      WalkSkips(t, c, last, start - 1, start);
    } else {
      var top := HighestIsMax(below);
      WalkSkips(t, c, last, top.blockNumber, start);
      assert TopReached(t, c, FindOne(t, top.blockNumber).value);
    }
  }

  lemma PollAppends(t: Table, cfg: Config, c: Chain)
    requires cfg.batch > 0 && Rolled(t, c, cfg.start).1 == t
    ensures t <= Poll(t, cfg, c)
  {
    hide Rollback, Scan, RowsIn, InsertAll;
    var from := Max(Rolled(t, c, cfg.start).0 + 1, cfg.start);
    ScanIgnoresBatches(t, cfg.filter, c, from, SafeTo(cfg, c), cfg.batch);
    InsertAllKeeps(t, RowsIn(cfg.filter, c, from, SafeTo(cfg, c) + 1));
  }

  /** When the head has fallen below a stored row and nothing lower reorganised, that row survives the poll. */
  lemma StaleRowSurvives(t: Table, cfg: Config, c: Chain) returns (stale: Row)
    requires cfg.batch > 0 && !Heals(t, c)
    requires forall r :: r in t ==> r.blockNumber >= cfg.start
    ensures stale in Poll(t, cfg, c) && stale.blockNumber >= |c|
  {
    stale :| stale in t && stale.blockNumber >= |c|;
    var i :| 0 <= i < |t| && t[i] == stale;
    RolledKeeps(t, c, cfg.start);
    PollAppends(t, cfg, c);
    assert Poll(t, cfg, c)[i] == stale;
  }

  /** The exact condition under which a poll leaves the table equal to the current chain's logs. */
  lemma PollExactIff(t: Table, cfg: Config, d: Chain, c: Chain, hw: nat)
    requires cfg.batch > 0 && Linked(c, d)
    requires DistinctLogs(cfg.filter, c)
    requires Holds(t, cfg.filter, d, cfg.start, hw)
    requires SafeTo(cfg, c) >= 0
    ensures Holds(Poll(t, cfg, c), cfg.filter, c, cfg.start, Mark(t, cfg, c) + 1) <==> Heals(t, c)
  {
    if Heals(t, c) {
      PollExact(t, cfg, d, c, hw);
    } else {
      RowsInRange(cfg.filter, d, cfg.start, hw);
      var stale := StaleRowSurvives(t, cfg, c);
      RowsInRange(cfg.filter, c, cfg.start, Mark(t, cfg, c) + 1);
    }
  }

  // ---------------------------------------------------------------- whole runs

  /** The table after polling a sequence of chains, one reorganisation between each two. */
  function Run(t: Table, cfg: Config, chains: seq<Chain>): Table
    requires cfg.batch > 0
  {
    if chains == [] then t else Poll(Run(t, cfg, chains[..|chains| - 1]), cfg, chains[|chains| - 1])
  }

  /** Every poll of the run that does any work finds a table it can heal. */
  ghost predicate Healing(t: Table, cfg: Config, chains: seq<Chain>)
    requires cfg.batch > 0
  {
    forall k :: 0 <= k < |chains| && SafeTo(cfg, chains[k]) >= 0 ==> Heals(Run(t, cfg, chains[..k]), chains[k])
  }

  /** In every run from the empty table, the table always equals some polled chain's logs in a range. */
  lemma {:induction false} RunExact(digest: Digest, cfg: Config, chains: seq<Chain>) returns (d: Chain, hw: nat)
    requires cfg.batch > 0 && CollisionFree(digest)
    requires forall c :: c in chains ==> Sealed(digest, c) && DistinctLogs(cfg.filter, c)
    requires Healing([], cfg, chains)
    ensures Sealed(digest, d) && Holds(Run([], cfg, chains), cfg.filter, d, cfg.start, hw)
    ensures d == [] || d in chains
    ensures chains != [] && SafeTo(cfg, chains[|chains| - 1]) >= 0 ==>
      d == chains[|chains| - 1]
      && hw == Mark(Run([], cfg, chains[..|chains| - 1]), cfg, chains[|chains| - 1]) + 1
  {
    hide Poll, RowsIn, Heals, Linked, Sealed, NoClash;
    if chains == [] {
      d, hw := [], 0;
      RowsInNone(cfg.filter, d, cfg.start, hw);
      EmptySealed(digest);
    } else {
      var prefix, c := chains[..|chains| - 1], chains[|chains| - 1];
      forall k | 0 <= k < |prefix| && SafeTo(cfg, prefix[k]) >= 0 ensures Heals(Run([], cfg, prefix[..k]), prefix[k]) {
        assert prefix[..k] == chains[..k];
      }
      var d0, hw0 := RunExact(digest, cfg, prefix);
      if SafeTo(cfg, c) < 0 {
        PollNothing(Run([], cfg, prefix), cfg, c);
        d, hw := d0, hw0;
      } else {
        SealedLinked(digest, c, d0);
        PollExact(Run([], cfg, prefix), cfg, d0, c, hw0);
        d, hw := c, Mark(Run([], cfg, prefix), cfg, c) + 1;
      }
    }
  }

  lemma PollNothing(t: Table, cfg: Config, c: Chain)
    requires cfg.batch > 0 && SafeTo(cfg, c) < 0
    ensures Poll(t, cfg, c) == t
  {
  }

  lemma EmptySealed(digest: Digest)
    ensures Sealed(digest, [])
  {
  }
}
