/**
  When the substring search for a batch's rows can miss: the exact condition over every order, chunk width,
  way of handling errors and batch id.
*/
module BatchSearch {
  import opened Wrappers
  import opened Text
  import opened BatchQueue

  /** Some job of the run ended while the search for its row found another row, or none. */
  ghost predicate Misses(start: State, events: seq<Event>) {
    events != [] &&
      var front, e := events[..|events| - 1], events[|events| - 1];
      Misses(start, front)
      || (e.JobEnds? && Run(start, front).Some?
          && FindRow(Run(start, front).value.progress.results, Needle(e.row)) != e.row)
  }

  lemma {:induction false} NeverMisses(batchId: string, cfg: Config, events: seq<Event>)
    requires GoodBatch(batchId, cfg) && HarmlessRun(events, cfg)
    requires Run(Start(batchId, cfg), events).Some?
    ensures !Misses(Start(batchId, cfg), events)
  {
    hide Inv, Step;
    if events != [] {
      var front, e := events[..|events| - 1], events[|events| - 1];
      NeverMisses(batchId, cfg, front);
      Reachable(batchId, cfg, front);
      var s := Run(Start(batchId, cfg), front).value;
      if e.JobEnds? {
        NoneTaken(s, e.row);
        RowNameContains(batchId, e.row);
      }
    }
  }

  // ---------------------------------------------------------------- runs whose jobs end as given

  /** How each row's job ends, if it does, without stopping the batch. */
  ghost predicate Quiet(outs: seq<Outcome>, cfg: Config) {
    |outs| == |cfg.order| && forall o :: o in outs ==> o.Success? || cfg.continueOnError
  }

  ghost predicate AllEnd(events: seq<Event>, outs: seq<Outcome>, rows: seq<nat>) {
    forall e :: e in events ==> e == NextChunk || (e.JobEnds? && e.row in rows && e.row < |outs| && e.outcome == outs[e.row])
  }

  ghost predicate Ended(events: seq<Event>, outs: seq<Outcome>, rows: seq<nat>) {
    forall r :: r in rows && r < |outs| ==> JobEnds(r, outs[r]) in events
  }

  /** While the search does not miss, a row has its name until it completes, and then the id of its job. */
  lemma {:induction false} Names(batchId: string, cfg: Config, events: seq<Event>, outs: seq<Outcome>, rows: seq<nat>, r: nat)
    requires Run(Start(batchId, cfg), events).Some? && !Misses(Start(batchId, cfg), events)
    requires AllEnd(events, outs, rows) && r < |cfg.order| == |outs|
    ensures var p := Run(Start(batchId, cfg), events).value.progress;
      && p.batchId == batchId && |p.results| == |cfg.order|
      && p.results[r].jobId
         == if JobEnds(r, outs[r]) in events && outs[r].Success? then outs[r].jobId else RowName(batchId, r)
  {
    hide Run, Step, Misses, Needle, RowName;
    var start := Start(batchId, cfg);
    if events == [] {
      RunStarts(start);
    } else {
      var front, e := events[..|events| - 1], events[|events| - 1];
      assert events == front + [e] && e in events;
      RunLast(start, events);
      MissLast(start, events);
      Names(batchId, cfg, front, outs, rows, r);
      StepNames(Run(start, front).value, e);
    }
  }

  lemma RunLast(start: State, events: seq<Event>)
    requires events != [] && Run(start, events).Some?
    ensures var front, e := events[..|events| - 1], events[|events| - 1];
      && Run(start, front).Some? && Enabled(Run(start, front).value, e)
      && Run(start, events).value == Step(Run(start, front).value, e)
  {
  }

  lemma MissLast(start: State, events: seq<Event>)
    requires events != [] && Run(start, events).Some? && !Misses(start, events)
    ensures var front, e := events[..|events| - 1], events[|events| - 1];
      && !Misses(start, front) && Run(start, front).Some?
      && (e.JobEnds? ==> FindRow(Run(start, front).value.progress.results, Needle(e.row)) == e.row)
  {
  }

  /** A job whose row is found renames that row and no other. */
  lemma StepNames(s: State, e: Event)
    requires Enabled(s, e)
    requires e.JobEnds? ==> e.row < |s.progress.results| && FindRow(s.progress.results, Needle(e.row)) == e.row
    ensures var p, q := s.progress, Step(s, e).progress;
      && q.batchId == p.batchId && |q.results| == |p.results|
      && forall r :: 0 <= r < |p.results| ==>
           q.results[r].jobId == if !e.JobEnds? || e.row != r then p.results[r].jobId
                                 else if e.outcome.Success? then e.outcome.jobId else RowName(p.batchId, r)
  {
  }

  lemma QuietEnds(s: State, row: nat, o: Outcome)
    requires row in s.inFlight && (o.Success? || s.cfg.continueOnError)
    ensures var t := Step(s, JobEnds(row, o));
      t.cfg == s.cfg && t.next == s.next && t.phase == s.phase && t.inFlight == s.inFlight - {row}
  {
  }

  lemma {:induction false} AlignedBelow(p: nat, q: nat, i: nat, width: nat)
    requires width > 0 && Aligned(i, width) && i <= q && Group(p, width) >= Group(q, width)
    ensures i <= p
  {
    if i > 0 {
      if p >= width {
        AlignedBelow(p - width, q - width, i - width, width);
      }
    }
  }

  /** The rows of a chunk in flight end one after the other. */
  lemma {:induction false} ChunkEnds(start: State, events: seq<Event>, s: State, rows: seq<nat>, outs: seq<Outcome>, k: nat)
    returns (more: seq<Event>, t: State)
    requires Run(start, events) == Some(s) && Quiet(outs, s.cfg) && k <= |rows| && s.inFlight == Members(rows[k..])
    requires forall i, j :: 0 <= i < j < |rows| ==> rows[i] != rows[j]
    requires forall i :: 0 <= i < |rows| ==> rows[i] < |outs|
    ensures Run(start, events + more) == Some(t) && AllEnd(more, outs, rows) && Ended(more, outs, rows[k..])
    ensures t.cfg == s.cfg && t.next == s.next && t.phase == s.phase && t.inFlight == {}
    decreases |rows| - k
  {
    hide Run, Members, Step, Settle, AllEnd, Ended;
    if k == |rows| {
      NoMembers(rows);
      NothingEnds(outs, rows);
      more, t := [], s;
      assert events + [] == events;
    } else {
      var o := outs[rows[k]];
      var e := JobEnds(rows[k], o);
      assert o in outs;
      DropFirst(rows, k);
      RunExtends(start, events, e);
      QuietEnds(s, rows[k], o);
      more, t := ChunkEnds(start, events + [e], Step(s, e), rows, outs, k + 1);
      assert events + [e] + more == events + ([e] + more);
      AllEndFirst(more, outs, rows, k);
      more := [e] + more;
    }
  }

  lemma NothingEnds(outs: seq<Outcome>, rows: seq<nat>)
    ensures AllEnd([], outs, rows) && Ended([], outs, rows[|rows|..])
  {
  }

  lemma AllEndFirst(more: seq<Event>, outs: seq<Outcome>, rows: seq<nat>, k: nat)
    requires k < |rows| && rows[k] < |outs| && AllEnd(more, outs, rows) && Ended(more, outs, rows[k + 1..])
    ensures AllEnd([JobEnds(rows[k], outs[rows[k]])] + more, outs, rows)
    ensures Ended([JobEnds(rows[k], outs[rows[k]])] + more, outs, rows[k..])
  {
    assert rows[k..] == [rows[k]] + rows[k + 1..];
  }

  lemma ChunkGoes(s: State, i: nat)
    requires s.cfg.width > 0 && s.phase == Working && s.inFlight == {}
    requires s.next + s.cfg.width == i < |s.cfg.order|
    ensures var t, rows := Step(s, NextChunk), s.cfg.order[s.next..i];
      t.cfg == s.cfg && t.next == i && t.phase == Working && t.inFlight == Members(rows[0..])
  {
    hide Members, Permutes;
    var rows := s.cfg.order[s.next..i];
    assert rows[0..] == rows;
  }

  lemma DistinctRows(order: seq<nat>, from: nat, to: nat)
    requires Permutes(order, |order|) && from <= to <= |order|
    ensures forall j, k :: 0 <= j < k < to - from ==> order[from..to][j] != order[from..to][k]
    ensures forall k :: 0 <= k < to - from ==> order[from..to][k] < |order|
  {
    assert forall k :: 0 <= k < to - from ==> order[from..to][k] == order[from + k];
    forall j, k | 0 <= j < k < to - from ensures order[from..to][j] != order[from..to][k] {
      assert order[from + j] != order[from + k];
    }
  }

  /** A run that brings the batch to the chunk starting at i, all its jobs so far ending as given. */
  lemma {:induction false} QuietRun(batchId: string, cfg: Config, outs: seq<Outcome>, i: nat) returns (events: seq<Event>, s: State)
    requires Permutes(cfg.order, |cfg.order|) && cfg.width > 0 && Quiet(outs, cfg) && Aligned(i, cfg.width) && i < |cfg.order|
    ensures Run(Start(batchId, cfg), events) == Some(s) && AllEnd(events, outs, cfg.order[..i]) && Ended(events, outs, cfg.order[..i])
    ensures s.cfg == cfg && s.next == i && s.phase == Working && s.inFlight == {}
  {
    hide Run, Members, Quiet, Step, Chunk, Permutes, AllEnd, Ended;
    var start := Start(batchId, cfg);
    if i == 0 {
      events, s := [], start;
      RunStarts(start);
      NoneEnd(outs, cfg.order[..0]);
    } else {
      events, s := QuietRun(batchId, cfg, outs, i - cfg.width);
      var rows := cfg.order[i - cfg.width..i];
      ChunkGoes(s, i);
      DistinctRows(cfg.order, s.next, i);
      QuietSize(outs, cfg);
      RunExtends(start, events, NextChunk);
      var more: seq<Event>;
      more, s := ChunkEnds(start, events + [NextChunk], Step(s, NextChunk), rows, outs, 0);
      assert rows[0..] == rows && cfg.order[..i] == cfg.order[..i - cfg.width] + rows;
      AllEndConcat(events, more, outs, cfg.order[..i - cfg.width], rows);
      events := events + [NextChunk] + more;
    }
  }

  lemma NoneEnd(outs: seq<Outcome>, rows: seq<nat>)
    requires rows == []
    ensures AllEnd([], outs, rows) && Ended([], outs, rows)
  {
  }

  lemma AllEndConcat(events: seq<Event>, more: seq<Event>, outs: seq<Outcome>, first: seq<nat>, rest: seq<nat>)
    requires AllEnd(events, outs, first) && Ended(events, outs, first) && AllEnd(more, outs, rest) && Ended(more, outs, rest)
    ensures AllEnd(events + [NextChunk] + more, outs, first + rest) && Ended(events + [NextChunk] + more, outs, first + rest)
  {
  }

  lemma QuietSize(outs: seq<Outcome>, cfg: Config)
    requires Quiet(outs, cfg)
    ensures |outs| == |cfg.order|
  {
  }

  /** The start of the chunk of position q. */
  lemma {:induction false} ChunkOf(q: nat, width: nat) returns (i: nat)
    requires width > 0
    ensures Aligned(i, width) && i <= q < i + width
  {
    if q < width {
      i := 0;
    } else {
      i := ChunkOf(q - width, width);
      i := i + width;
    }
  }

  /** A run up to the moment when the chunk of position q has been started. */
  lemma ReachChunk(batchId: string, cfg: Config, outs: seq<Outcome>, q: nat) returns (i: nat, events: seq<Event>, s: State)
    requires Permutes(cfg.order, |cfg.order|) && cfg.width > 0 && Quiet(outs, cfg) && q < |cfg.order|
    ensures Aligned(i, cfg.width) && i <= q < i + cfg.width
    ensures Run(Start(batchId, cfg), events) == Some(s) && s.cfg == cfg && s.inFlight == Members(Chunk(cfg, i))
    ensures AllEnd(events, outs, cfg.order[..i]) && Ended(events, outs, cfg.order[..i])
  {
    hide Run, Members, Permutes, Quiet, AllEnd, Ended;
    i := ChunkOf(q, cfg.width);
    events, s := QuietRun(batchId, cfg, outs, i);
    RunExtends(Start(batchId, cfg), events, NextChunk);
    NoneEnd(outs, []);
    AllEndConcat(events, [], outs, cfg.order[..i], []);
    assert events + [NextChunk] + [] == events + [NextChunk] && cfg.order[..i] + [] == cfg.order[..i];
    events := events + [NextChunk];
    s := Step(s, NextChunk);
  }

  /** The ids given to the jobs when they end well. */
  function Successes(ids: seq<string>): (outs: seq<Outcome>)
    ensures |outs| == |ids| && forall r :: 0 <= r < |ids| ==> outs[r] == Success(ids[r], 0)
  {
    if ids == [] then [] else Successes(ids[..|ids| - 1]) + [Success(ids[|ids| - 1], 0)]
  }

  /** Jobs that end well do so under the ids given. */
  ghost predicate Given(events: seq<Event>, ids: seq<string>) {
    forall e :: e in events && e.JobEnds? && e.outcome.Success? ==> e.row < |ids| && e.outcome.jobId == ids[e.row]
  }

  lemma GivenBy(events: seq<Event>, outs: seq<Outcome>, rows: seq<nat>, ids: seq<string>)
    requires AllEnd(events, outs, rows) && |outs| == |ids|
    requires forall r :: 0 <= r < |ids| && outs[r].Success? ==> outs[r].jobId == ids[r]
    ensures Given(events, ids)
  {
  }

  lemma AllEndMore(events: seq<Event>, outs: seq<Outcome>, rows: seq<nat>, r: nat)
    requires AllEnd(events, outs, rows) && r < |outs|
    ensures AllEnd(events, outs, rows + [r]) && AllEnd(events + [JobEnds(r, outs[r])], outs, rows + [r])
    ensures (events + [JobEnds(r, outs[r])])[..|events|] == events
  {
  }

  /** A job ends while an earlier row still has, or already has, a name that contains its mark. */
  lemma MissNow(batchId: string, cfg: Config, before: seq<Event>, s: State, outs: seq<Outcome>, rows: seq<nat>, r: nat, row: nat)
    returns (events: seq<Event>)
    requires Run(Start(batchId, cfg), before) == Some(s) && row in s.inFlight && AllEnd(before, outs, rows)
    requires r < row < |cfg.order| == |outs|
    requires Contains(if JobEnds(r, outs[r]) in before && outs[r].Success? then outs[r].jobId else RowName(batchId, r), Needle(row))
    ensures Run(Start(batchId, cfg), events).Some? && Misses(Start(batchId, cfg), events)
    ensures AllEnd(events, outs, rows + [row])
  {
    hide Run, Step, AllEnd, Contains;
    var start, e := Start(batchId, cfg), JobEnds(row, outs[row]);
    RunExtends(start, before, e);
    AllEndMore(before, outs, rows, row);
    events := before + [e];
    if !Misses(start, before) {
      Names(batchId, cfg, before, outs, rows, r);
    }
  }

  /** A batch that is not sound has a run in which a job ends and the search finds another job's row. */
  lemma UnsoundMisses(batchId: string, cfg: Config, ids: seq<string>) returns (events: seq<Event>)
    requires Permutes(cfg.order, |cfg.order|) && cfg.width > 0 && !Sound(batchId, cfg) && |ids| == |cfg.order|
    ensures Given(events, ids) && Run(Start(batchId, cfg), events).Some? && Misses(Start(batchId, cfg), events)
  {
    hide Run, Members, Permutes, Misses, Aligned, Contains, Group;
    var order := cfg.order;
    var p, q :| 0 <= p < |order| && 0 <= q < |order| && order[p] < order[q]
      && Contains(batchId, Needle(order[q])) && (cfg.continueOnError || Group(p, cfg.width) >= Group(q, cfg.width));
    var outs := if cfg.continueOnError then Failures(|ids|) else Successes(ids);
    var i, before, s := ReachChunk(batchId, cfg, outs, q);
    InFlight(cfg, i, q);
    PermutesBounds(order, q);
    NotAmong(cfg, p, q, i);
    NameContainsIff(batchId, order[p], order[q]);
    EndedMeans(before, outs, order[..i], order[p]);
    events := MissNow(batchId, cfg, before, s, outs, order[..i], order[p], order[q]);
    GivenBy(events, outs, order[..i] + [order[q]], ids);
  }

  function Failures(n: nat): (outs: seq<Outcome>)
    ensures |outs| == n && forall r :: 0 <= r < n ==> outs[r] == Failure(0)
  {
    if n == 0 then [] else Failures(n - 1) + [Failure(0)]
  }

  lemma EndedMeans(events: seq<Event>, outs: seq<Outcome>, rows: seq<nat>, r: nat)
    requires AllEnd(events, outs, rows) && Ended(events, outs, rows) && r < |outs|
    ensures JobEnds(r, outs[r]) in events <==> r in rows
  {
  }

  /** An id that is not harmless lets its row be taken for another. */
  lemma HarmfulMisses(batchId: string, cfg: Config, ids: seq<string>, r: nat) returns (events: seq<Event>)
    requires Permutes(cfg.order, |cfg.order|) && cfg.width > 0 && |ids| == |cfg.order|
    requires r < |ids| && !Harmless(ids[r], cfg, r)
    ensures Given(events, ids) && Run(Start(batchId, cfg), events).Some? && Misses(Start(batchId, cfg), events)
  {
    hide Run, Members, Permutes, Misses, Aligned, Contains, Group;
    var order, outs := cfg.order, Successes(ids);
    var p, q :| 0 <= p < |order| && 0 <= q < |order| && order[p] == r < order[q]
      && Group(p, cfg.width) <= Group(q, cfg.width) && Contains(ids[r], Needle(order[q]));
    var i, before, s := ReachChunk(batchId, cfg, outs, q);
    InFlight(cfg, i, q);
    PermutesBounds(order, q);
    var rows := order[..i];
    if p < i {
      assert r in rows;
    } else {
      StartsBy(p, q, i, cfg.width);
      InFlight(cfg, i, p);
      RunExtends(Start(batchId, cfg), before, JobEnds(r, outs[r]));
      QuietEnds(s, r, outs[r]);
      AllEndMore(before, outs, rows, r);
      before, s, rows := before + [JobEnds(r, outs[r])], Step(s, JobEnds(r, outs[r])), rows + [r];
    }
    events := MissNow(batchId, cfg, before, s, outs, rows, r, order[q]);
    GivenBy(events, outs, rows + [order[q]], ids);
  }

  /** A position in no later chunk than q lies before the end of the chunk of q. */
  lemma {:induction false} StartsBy(p: nat, q: nat, i: nat, width: nat)
    requires width > 0 && Aligned(i, width) && i <= q < i + width && Group(p, width) <= Group(q, width)
    ensures p < i + width
  {
    if i > 0 && p >= width {
      StartsBy(p - width, q - width, i - width, width);
    }
  }

  lemma PermutesBounds(order: seq<nat>, p: nat)
    requires Permutes(order, |order|) && p < |order|
    ensures order[p] < |order|
  {
  }

  lemma InFlight(cfg: Config, i: nat, q: nat)
    requires cfg.width > 0 && i <= q < i + cfg.width && q < |cfg.order|
    ensures cfg.order[q] in Members(Chunk(cfg, i))
  {
    assert Chunk(cfg, i)[q - i] == cfg.order[q];
  }

  lemma NotAmong(cfg: Config, p: nat, q: nat, i: nat)
    requires Permutes(cfg.order, |cfg.order|) && cfg.width > 0 && p < |cfg.order| && i <= q < |cfg.order| && Aligned(i, cfg.width)
    ensures Group(p, cfg.width) >= Group(q, cfg.width) ==> cfg.order[p] !in cfg.order[..i]
  {
    if Group(p, cfg.width) >= Group(q, cfg.width) {
      AlignedBelow(p, q, i, cfg.width);
    }
  }

  ghost predicate AllHarmless(ids: seq<string>, cfg: Config)
    requires cfg.width > 0
  {
    forall r :: 0 <= r < |ids| ==> Harmless(ids[r], cfg, r)
  }

  lemma GivenHarmless(events: seq<Event>, ids: seq<string>, cfg: Config)
    requires cfg.width > 0 && Given(events, ids) && AllHarmless(ids, cfg)
    ensures HarmlessRun(events, cfg)
  {
    hide Harmless;
    forall k | 0 <= k < |events| ensures HarmlessEvent(events[k], cfg) {
      assert events[k] in events;
    }
  }

  /**
    The exact condition, for every order, chunk width and way of handling errors, every batch id and all ids
    the queue gives the jobs: some run of the batch takes one row for another if and only if the batch is not
    sound or one of the ids is not harmless.
  */
  lemma MissReachableIff(batchId: string, cfg: Config, ids: seq<string>)
    requires Permutes(cfg.order, |cfg.order|) && cfg.width > 0 && |ids| == |cfg.order|
    ensures (exists events :: Given(events, ids) && Run(Start(batchId, cfg), events).Some? && Misses(Start(batchId, cfg), events))
       <==> !Sound(batchId, cfg) || !AllHarmless(ids, cfg)
  {
    hide Permutes, Sound, Harmless, Misses, Run, Given;
    if !Sound(batchId, cfg) {
      var events := UnsoundMisses(batchId, cfg, ids);
    } else if !AllHarmless(ids, cfg) {
      var r :| 0 <= r < |ids| && !Harmless(ids[r], cfg, r);
      var events := HarmfulMisses(batchId, cfg, ids, r);
    } else {
      forall events | Given(events, ids) && Run(Start(batchId, cfg), events).Some?
        ensures !Misses(Start(batchId, cfg), events)
      {
        GivenHarmless(events, ids, cfg);
        NeverMisses(batchId, cfg, events);
      }
    }
  }

  /** A sequential batch that stops on errors is sound whatever its id. */
  lemma SequentialSound(batchId: string, n: nat)
    ensures Sound(batchId, Config(Identity(n), 1, false))
  {
    hide Group;
    forall p, q | 0 <= p < q < n ensures Group(p, 1) < Group(q, 1) {
      GroupOne(p);
      GroupOne(q);
    }
  }

  /** Run one at a time in submission order, an id is harmless if it contains no mark of a later row. */
  lemma OneByOneHarmlessIff(id: string, n: nat, cont: bool, row: nat)
    requires row < n
    ensures Harmless(id, Config(Identity(n), 1, cont), row) <==> forall k :: row < k < n ==> !Contains(id, Needle(k))
  {
    hide Group, Contains;
    var order := Identity(n);
    if Harmless(id, Config(order, 1, cont), row) {
      forall k | row < k < n ensures !Contains(id, Needle(k)) {
        GroupOne(row);
        GroupOne(k);
        assert order[row] == row && order[k] == k;
      }
    }
  }

  lemma {:induction false} GroupOne(p: nat)
    ensures Group(p, 1) == p
  {
    if p > 0 {
      GroupOne(p - 1);
    }
  }

  /** A batch that continues on errors is sound exactly with a clean id, whatever its order and chunks. */
  lemma ContinuingSoundIff(batchId: string, cfg: Config)
    requires Permutes(cfg.order, |cfg.order|) && cfg.width > 0 && cfg.continueOnError
    ensures Sound(batchId, cfg) <==> Clean(batchId, |cfg.order|)
  {
    var n := |cfg.order|;
    if k :| 1 <= k < n && Contains(batchId, Needle(k)) {
      Surjective(cfg.order, n, 0);
      Surjective(cfg.order, n, k);
      var p :| 0 <= p < n && cfg.order[p] == 0;
      var q :| 0 <= q < n && cfg.order[q] == k;
      assert cfg.order[p] < cfg.order[q];
    }
  }
}
