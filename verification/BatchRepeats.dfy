/**
  What becomes of a batch in src/compute-job-queue/queue.service.ts to which one job object was submitted more than
  once under the priority strategy: the strategy runs the first of its rows again and never the later ones, and the
  second end of a job may be recorded in the row of another.
*/
module BatchRepeats {
  import opened Wrappers
  import opened Text
  import opened BatchQueue

  /** The text contains the mark of no row. */
  ghost predicate Spotless(id: string, n: nat) {
    forall k :: 0 <= k < n ==> !Contains(id, Needle(k))
  }

  /** The digits of i begin those of r. */
  predicate Begins(i: nat, r: nat) { Decimal(i) <= Decimal(r) }

  /**
    A completed row has a spotless id. Any other carries the mark of a number whose digits begin its own: its own
    number, or that of a failed job which ended on it.
  */
  ghost predicate Named(rows: seq<Row>, batchId: string, names: seq<nat>) {
    |names| == |rows| && forall r :: 0 <= r < |rows| ==> NamedAt(rows[r], batchId, names[r], r, |rows|)
  }

  ghost predicate NamedAt(row: Row, batchId: string, name: nat, r: nat, n: nat) {
    && Begins(name, r)
    && if row.status == Completed then Spotless(row.jobId, n) else row.jobId == RowName(batchId, name)
  }

  lemma NameOf(rows: seq<Row>, batchId: string, names: seq<nat>, r: nat, i: nat)
    requires Spotless(batchId, |rows|) && Named(rows, batchId, names) && r < |rows| && i < |rows|
    ensures Contains(rows[r].jobId, Needle(i)) <==> rows[r].status != Completed && Begins(i, names[r])
    ensures Begins(names[r], r) && |names| == |rows|
  {
    hide Contains, RowName;
    assert NamedAt(rows[r], batchId, names[r], r, |rows|);
    NameContainsIff(batchId, names[r], i);
  }

  lemma BeginsLater(i: nat, m: nat, r: nat)
    requires Begins(i, m) && Begins(m, r)
    ensures Begins(i, r) && i <= r
  {
    if r < i {
      NoEarlierPrefix(i, r);
    }
  }

  /**
    A job that ends settles the first row that has not completed and whose mark starts with its row's digits:
    its own row the first time; after that row has completed a row of another job, or none.
  */
  lemma FindsFirst(rows: seq<Row>, batchId: string, names: seq<nat>, i: nat)
    requires Spotless(batchId, |rows|) && Named(rows, batchId, names) && i < |rows|
    ensures var k := FindRow(rows, Needle(i));
      && i <= k <= |rows|
      && (k < |rows| ==> rows[k].status != Completed && Begins(i, names[k]) && Begins(names[k], k) && Begins(i, k))
      && forall r :: i <= r < k ==> rows[r].status == Completed || !Begins(i, names[r])
  {
    hide Contains, RowName, Spotless, Named, Begins;
    var k := FindRow(rows, Needle(i));
    NameOf(rows, batchId, names, i, i);
    if k < |rows| {
      NameOf(rows, batchId, names, k, i);
      BeginsLater(i, names[k], k);
    }
    forall r | i <= r < k ensures rows[r].status == Completed || !Begins(i, names[r]) {
      NameOf(rows, batchId, names, r, i);
    }
  }

  /**
    The second end of a job whose row has completed: it is settled on the first later row that has not completed
    and whose mark starts with the same digits, which takes over its outcome; if there is none it is lost.
  */
  lemma SecondSettlement(p: Progress, names: seq<nat>, i: nat, o: Outcome, cont: bool)
    requires Spotless(p.batchId, |p.results|) && Named(p.results, p.batchId, names)
    requires i < |p.results| && p.results[i].status == Completed
    ensures var k := FindRow(p.results, Needle(i));
      && i < k <= |p.results|
      && (k < |p.results| ==>
            && p.results[k].status != Completed && Begins(i, names[k]) && Begins(i, k)
            && Settle(p, i, o, cont).0.results == p.results[k := SettledRow(p.batchId, i, p.results[k], o)])
      && (k == |p.results| <==> forall r :: i < r < |p.results| ==> p.results[r].status == Completed || !Begins(i, names[r]))
      && (k == |p.results| ==> Settle(p, i, o, cont) == (p, false))
  {
    hide Contains, RowName, Spotless, Named, Begins, SettledRow;
    FindsFirst(p.results, p.batchId, names, i);
  }

  // ---------------------------------------------------------------- every run

  /** The jobs that end well do so under spotless ids. */
  ghost predicate SpotlessRun(events: seq<Event>, n: nat) {
    forall e :: e in events && e.JobEnds? && e.outcome.Success? ==> Spotless(e.outcome.jobId, n)
  }

  ghost predicate RowsOf(order: seq<nat>) { forall r :: r in order ==> r < |order| }

  /** Only rows of the order are in flight. */
  lemma {:induction false} InFlightOrdered(batchId: string, cfg: Config, events: seq<Event>)
    requires Run(Start(batchId, cfg), events).Some?
    ensures var s := Run(Start(batchId, cfg), events).value;
      && s.cfg == cfg && s.progress.batchId == batchId && |s.progress.results| == |cfg.order|
      && forall r :: r in s.inFlight ==> r in cfg.order
  {
    hide FindRow;
    if events != [] {
      InFlightOrdered(batchId, cfg, events[..|events| - 1]);
    }
  }

  /**
    Whatever rows an order repeats or leaves out: every row carries a mark that begins its number until it
    completes, and the counter of completed jobs is the number of completed rows.
  */
  lemma {:induction false} RunNames(batchId: string, cfg: Config, events: seq<Event>) returns (names: seq<nat>)
    requires Run(Start(batchId, cfg), events).Some? && RowsOf(cfg.order)
    requires Spotless(batchId, |cfg.order|) && SpotlessRun(events, |cfg.order|)
    ensures var p := Run(Start(batchId, cfg), events).value.progress;
      && p.batchId == batchId && |p.results| == |cfg.order| && Named(p.results, batchId, names)
      && p.completedJobs == Tally(p.results, Completed)
      && (p.completedJobs == |cfg.order| <==> forall r :: 0 <= r < |cfg.order| ==> p.results[r].status == Completed)
  {
    hide Named, Spotless, Step, Tally;
    if events == [] {
      names := FreshNames(batchId, |cfg.order|);
    } else {
      var front, e := events[..|events| - 1], events[|events| - 1];
      names := RunNames(batchId, cfg, front);
      InFlightOrdered(batchId, cfg, front);
      var s := Run(Start(batchId, cfg), front).value;
      assert front + [e] == events && e in events;
      if e.JobEnds? {
        names := EndNamed(s, names, e);
      } else {
        OtherNamed(s, e);
      }
    }
    TallyFull(Run(Start(batchId, cfg), events).value.progress.results);
  }

  lemma {:induction false} TallyFull(rows: seq<Row>)
    ensures Tally(rows, Completed) <= |rows|
    ensures Tally(rows, Completed) == |rows| <==> forall r :: 0 <= r < |rows| ==> rows[r].status == Completed
  {
    if rows != [] {
      TallyFull(rows[..|rows| - 1]);
    }
  }

  lemma FreshNames(batchId: string, n: nat) returns (names: seq<nat>)
    ensures Named(FreshRows(batchId, n), batchId, names) && Tally(FreshRows(batchId, n), Completed) == 0
  {
    names := Identity(n);
    TallyFresh(batchId, n, Completed);
  }

  lemma OtherNamed(s: State, e: Event)
    requires Enabled(s, e) && !e.JobEnds?
    ensures var p, q := s.progress, Step(s, e).progress;
      q.batchId == p.batchId && q.results == p.results && q.completedJobs == p.completedJobs
  {
  }

  lemma EndNamed(s: State, names: seq<nat>, e: Event) returns (after: seq<nat>)
    requires Enabled(s, e) && e.JobEnds? && e.row < |s.progress.results|
    requires Named(s.progress.results, s.progress.batchId, names) && Spotless(s.progress.batchId, |s.progress.results|)
    requires e.outcome.Success? ==> Spotless(e.outcome.jobId, |s.progress.results|)
    requires s.progress.completedJobs == Tally(s.progress.results, Completed)
    ensures var p := Step(s, e).progress;
      && p.batchId == s.progress.batchId && |p.results| == |s.progress.results| && Named(p.results, p.batchId, after)
      && p.completedJobs == Tally(p.results, Completed)
  {
    hide Named, Tally, Spotless, FindRow, Begins, Contains, SettledRow, RowName;
    var p, i, o := s.progress, e.row, e.outcome;
    FindsFirst(p.results, p.batchId, names, i);
    var k := FindRow(p.results, Needle(i));
    after := names;
    if k < |p.results| {
      var row := SettledRow(p.batchId, i, p.results[k], o);
      TallyUpdate(p.results, k, row, Completed);
      after := SettledNamed(p.results, p.batchId, names, k, i, o);
    }
  }

  lemma SettledNamed(rows: seq<Row>, batchId: string, names: seq<nat>, k: nat, i: nat, o: Outcome) returns (after: seq<nat>)
    requires Named(rows, batchId, names) && k < |rows| && Begins(i, k) && (o.Success? ==> Spotless(o.jobId, |rows|))
    ensures var row := SettledRow(batchId, i, rows[k], o);
      Named(rows[k := row], batchId, after) && (row.status == Completed <==> o.Success?)
  {
    hide Spotless, RowName, Begins;
    after := names[k := i];
    forall r | 0 <= r < |rows|
      ensures NamedAt(rows[k := SettledRow(batchId, i, rows[k], o)][r], batchId, after[r], r, |rows|)
    {
      assert NamedAt(rows[r], batchId, names[r], r, |rows|);
    }
  }

  // ---------------------------------------------------------------- which rows other jobs can reach

  /** What a row records of the ends of its own job: the first success, or else the last failure. */
  function RowAfter(batchId: string, row: nat, events: seq<Event>): Row {
    if events == [] then FreshRow(batchId, row)
    else
      var before, e := RowAfter(batchId, row, events[..|events| - 1]), events[|events| - 1];
      if e.JobEnds? && e.row == row && before.status != Completed then SettledRow(batchId, row, before, e.outcome)
      else before
  }

  /** The first row from a given one on, before r, that is open and begun by the digits of i; or r. */
  function NextOpen(i: nat, from: nat, closed: set<nat>, r: nat): (k: nat)
    requires from <= r
    ensures from <= k <= r && (k < r ==> k !in closed && Begins(i, k))
    ensures forall q :: from <= q < k ==> q in closed || !Begins(i, q)
    decreases r - from
  {
    if from == r || (from !in closed && Begins(i, from)) then from else NextOpen(i, from + 1, closed, r)
  }

  /** The rows before r that have closed once the rows of the order have been run, when every job ends well. */
  function Closed(order: seq<nat>, r: nat): (closed: set<nat>)
    ensures forall q :: q in closed ==> q < r
  {
    if order == [] then {}
    else
      var before, i := Closed(order[..|order| - 1], r), order[|order| - 1];
      if i < r && NextOpen(i, i, before, r) < r then before + {NextOpen(i, i, before, r)} else before
  }

  /**
    At place p of the order another job can end on row r: the digits of its row begin r, every row between that
    they begin has closed, and r is still open, as it is if it was not run before or its job may fail there.
  */
  predicate RobbedAt(order: seq<nat>, continueOnError: bool, r: nat, p: nat)
    requires p < |order|
  {
    && order[p] < r && Begins(order[p], r) && NextOpen(order[p], order[p], Closed(order[..p], r), r) == r
    && (continueOnError || r !in order[..p])
  }

  predicate Robbed(order: seq<nat>, continueOnError: bool, r: nat) {
    exists p :: 0 <= p < |order| && RobbedAt(order, continueOnError, r, p)
  }

  /** The rows whose jobs ended, in order. */
  function EndedRows(events: seq<Event>): seq<nat> {
    if events == [] then []
    else
      var e := events[|events| - 1];
      EndedRows(events[..|events| - 1]) + if e.JobEnds? then [e.row] else []
  }

  /** One at a time: the rows end in the order's order, and at most the next one is in flight. */
  ghost predicate InTurn(s: State, order: seq<nat>, ended: seq<nat>) {
    && s.cfg.order == order && s.cfg.width == 1 && s.next <= |order|
    && ended <= order && |ended| == s.next - |s.inFlight|
    && (s.inFlight == {} || (s.next > 0 && s.inFlight == {order[s.next - 1]}))
  }

  lemma EndedMore(front: seq<Event>, e: Event)
    ensures EndedRows(front + [e]) == EndedRows(front) + if e.JobEnds? then [e.row] else []
  {
    assert (front + [e])[..|front|] == front;
  }

  lemma InTurnStep(s: State, order: seq<nat>, ended: seq<nat>, e: Event)
    requires InTurn(s, order, ended) && Enabled(s, e)
    ensures InTurn(Step(s, e), order, ended + if e.JobEnds? then [e.row] else [])
    ensures e.JobEnds? ==> |ended| < |order| && e.row == order[|ended|]
    ensures e.JobEnds? ==> Step(s, e).inFlight == {}
  {
    hide Settle, Chunk, Members, InTurn;
    if e.JobEnds? {
      EndInTurn(s, order, ended, e);
    } else {
      assert ended + [] == ended;
      OtherInTurn(s, order, ended, e);
    }
  }

  lemma EndInTurn(s: State, order: seq<nat>, ended: seq<nat>, e: Event)
    requires InTurn(s, order, ended) && Enabled(s, e) && e.JobEnds?
    ensures InTurn(Step(s, e), order, ended + [e.row])
    ensures |ended| < |order| && e.row == order[|ended|] && Step(s, e).inFlight == {}
  {
    hide Settle, Chunk, Members;
    assert |{order[s.next - 1]}| == 1;
    assert ended + [e.row] == order[..s.next];
  }

  lemma OtherInTurn(s: State, order: seq<nat>, ended: seq<nat>, e: Event)
    requires InTurn(s, order, ended) && Enabled(s, e) && !e.JobEnds?
    ensures InTurn(Step(s, e), order, ended)
  {
    hide Settle;
    if e.NextChunk? && s.next < |order| {
      assert Chunk(s.cfg, s.next) == [order[s.next]];
      assert Members([order[s.next]]) == {order[s.next]};
    }
  }

  lemma {:induction false} RunInTurn(batchId: string, order: seq<nat>, cont: bool, events: seq<Event>)
    requires Run(Start(batchId, Config(order, 1, cont)), events).Some?
    ensures InTurn(Run(Start(batchId, Config(order, 1, cont)), events).value, order, EndedRows(events))
  {
    hide InTurn, Step, Enabled;
    if events == [] {
      StartInTurn(batchId, order, cont);
    } else {
      var front, e := events[..|events| - 1], events[|events| - 1];
      RunInTurn(batchId, order, cont, front);
      InTurnStep(Run(Start(batchId, Config(order, 1, cont)), front).value, order, EndedRows(front), e);
    }
  }

  lemma StartInTurn(batchId: string, order: seq<nat>, cont: bool)
    ensures InTurn(Start(batchId, Config(order, 1, cont)), order, [])
  {
  }

  /** A row that has not completed has its own name as long as only its own job ended on it. */
  lemma {:induction false} OwnName(batchId: string, row: nat, events: seq<Event>)
    ensures RowAfter(batchId, row, events).status != Completed ==> RowAfter(batchId, row, events).jobId == RowName(batchId, row)
  {
    hide RowName;
    if events != [] {
      OwnName(batchId, row, events[..|events| - 1]);
    }
  }

  lemma AfterMore(batchId: string, row: nat, front: seq<Event>, e: Event)
    ensures var before, after := RowAfter(batchId, row, front), RowAfter(batchId, row, front + [e]);
      after == if e.JobEnds? && e.row == row && before.status != Completed then SettledRow(batchId, row, before, e.outcome)
               else before
  {
    assert (front + [e])[..|front|] == front;
  }

  lemma ClosedMore(order: seq<nat>, r: nat, i: nat)
    ensures var before := Closed(order, r);
      Closed(order + [i], r) == if i < r && NextOpen(i, i, before, r) < r then before + {NextOpen(i, i, before, r)} else before
  {
    assert (order + [i])[..|order|] == order;
  }

  // ---------------------------------------------------------------- what no other job can reach stays its own

  /**
    Row r records its own job, and rows before it that have not closed are as they were. When failures stop the
    batch, a job of row r that ended has completed its row, or it was the last.
  */
  ghost predicate Tracks(s: State, batchId: string, ended: seq<nat>, r: nat, own: Row) {
    && r < |s.progress.results| == |s.cfg.order| && s.progress.batchId == batchId
    && s.progress.results[r] == own && (own.status != Completed ==> own.jobId == RowName(batchId, r))
    && (forall q :: 0 <= q < r && q !in Closed(ended, r) ==> s.progress.results[q] == FreshRow(batchId, q))
    && (!s.cfg.continueOnError && r in ended && own.status != Completed ==> s.phase != Working && s.inFlight == {})
  }

  /** Where the end of job i can land, seen from row r. */
  lemma Lands(s: State, batchId: string, names: seq<nat>, ended: seq<nat>, r: nat, own: Row, i: nat)
    requires Tracks(s, batchId, ended, r, own) && i < |s.progress.results|
    requires Spotless(batchId, |s.progress.results|) && Named(s.progress.results, batchId, names)
    ensures var k := FindRow(s.progress.results, Needle(i));
      && (i > r ==> k > r)
      && (i == r ==> k >= r && (k == r <==> own.status != Completed))
      && (i < r ==>
            var a := NextOpen(i, i, Closed(ended, r), r);
            && (k < r && k !in Closed(ended, r) ==> k == a)
            && (k >= r ==> a == r) && (k == r ==> Begins(i, r) && own.status != Completed))
  {
    hide Contains, RowName, Spotless, Begins, Closed, Named;
    var rows, k := s.progress.results, FindRow(s.progress.results, Needle(i));
    FindsFirst(rows, batchId, names, i);
    NameOf(rows, batchId, names, i, i);
    if i == r {
      if own.status != Completed {
        FindsOwn(rows, batchId, r);
      }
    } else if i < r {
      var a := NextOpen(i, i, Closed(ended, r), r);
      if a < r {
        OpenFound(rows, batchId, a, i);
      }
      if k < r && k !in Closed(ended, r) {
        OpenBegun(rows, batchId, k, i);
      }
    }
  }

  lemma FindsOwn(rows: seq<Row>, batchId: string, r: nat)
    requires r < |rows| && rows[r].jobId == RowName(batchId, r)
    ensures FindRow(rows, Needle(r)) <= r
  {
    RowNameContains(batchId, r);
  }

  lemma OpenFound(rows: seq<Row>, batchId: string, a: nat, i: nat)
    requires a < |rows| && rows[a].jobId == RowName(batchId, a) && Begins(i, a)
    ensures FindRow(rows, Needle(i)) <= a
  {
    NameContainsIff(batchId, a, i);
  }

  lemma OpenBegun(rows: seq<Row>, batchId: string, k: nat, i: nat)
    requires k < |rows| && rows[k].jobId == RowName(batchId, k) && Spotless(batchId, |rows|) && i < |rows|
    requires Contains(rows[k].jobId, Needle(i))
    ensures Begins(i, k)
  {
    NameContainsIff(batchId, k, i);
  }

  lemma NotRobbedNow(s: State, batchId: string, ended: seq<nat>, r: nat, own: Row, i: nat, order: seq<nat>)
    requires Tracks(s, batchId, ended, r, own) && s.inFlight != {} && own.status != Completed
    requires ended <= order && |ended| < |order| && i == order[|ended|] < r && Begins(i, r)
    ensures NextOpen(i, i, Closed(ended, r), r) == r ==> RobbedAt(order, s.cfg.continueOnError, r, |ended|)
  {
    hide Closed, NextOpen, Begins;
    assert order[..|ended|] == ended;
  }

  /** The end of a job that cannot land on row r, or is its own, keeps the row its own. */
  lemma EndTracks(s: State, batchId: string, names: seq<nat>, order: seq<nat>, ended: seq<nat>, r: nat, own: Row, e: Event)
    requires Tracks(s, batchId, ended, r, own) && InTurn(s, order, ended) && Enabled(s, e) && e.JobEnds?
    requires Spotless(batchId, |order|) && Named(s.progress.results, batchId, names) && RowsOf(order)
    requires |ended| < |order| && !RobbedAt(order, s.cfg.continueOnError, r, |ended|)
    ensures Tracks(Step(s, e), batchId, ended + [e.row], r,
                   if e.row == r && own.status != Completed then SettledRow(batchId, r, own, e.outcome) else own)
  {
    hide Closed, NextOpen, Begins, Spotless, Named, FindRow, Contains, RobbedAt, RowName;
    var i := e.row;
    InTurnStep(s, order, ended, e);
    assert i in order;
    Lands(s, batchId, names, ended, r, own, i);
    ClosedMore(ended, r, i);
    if i < r && FindRow(s.progress.results, Needle(i)) == r {
      NotRobbedNow(s, batchId, ended, r, own, i, order);
    }
  }

  lemma OtherTracks(s: State, batchId: string, ended: seq<nat>, r: nat, own: Row, e: Event)
    requires Tracks(s, batchId, ended, r, own) && Enabled(s, e) && !e.JobEnds?
    ensures Tracks(Step(s, e), batchId, ended, r, own)
  {
    hide Closed, Members, RowName;
  }

  lemma StartTracks(batchId: string, order: seq<nat>, cont: bool, r: nat)
    requires r < |order|
    ensures Tracks(Start(batchId, Config(order, 1, cont)), batchId, [], r, FreshRow(batchId, r))
  {
  }

  lemma {:induction false} OwnKept(batchId: string, order: seq<nat>, cont: bool, events: seq<Event>, r: nat)
    requires Run(Start(batchId, Config(order, 1, cont)), events).Some? && RowsOf(order) && r < |order|
    requires Spotless(batchId, |order|) && SpotlessRun(events, |order|) && !Robbed(order, cont, r)
    ensures Tracks(Run(Start(batchId, Config(order, 1, cont)), events).value, batchId, EndedRows(events), r,
                   RowAfter(batchId, r, events))
  {
    hide Tracks, Step, Enabled, Spotless, Named, InTurn, RobbedAt;
    var cfg := Config(order, 1, cont);
    if events == [] {
      StartTracks(batchId, order, cont, r);
    } else {
      var front, e := events[..|events| - 1], events[|events| - 1];
      assert front + [e] == events;
      OwnKept(batchId, order, cont, front, r);
      var s := Run(Start(batchId, cfg), front).value;
      EndedMore(front, e);
      AfterMore(batchId, r, front, e);
      if e.JobEnds? {
        var names := RunNames(batchId, cfg, front);
        RunInTurn(batchId, order, cont, front);
        InFlightOrdered(batchId, cfg, front);
        InTurnStep(s, order, EndedRows(front), e);
        EndTracks(s, batchId, names, order, EndedRows(front), r, RowAfter(batchId, r, front), e);
      } else {
        OtherTracks(s, batchId, EndedRows(front), r, RowAfter(batchId, r, front), e);
        assert EndedRows(front) + [] == EndedRows(front);
      }
    }
  }

  // ---------------------------------------------------------------- what another job can reach is reached

  /** Between two jobs of a run that has closed all it could before row r and left r open. */
  ghost predicate Stage(s: State, batchId: string, cfg: Config, p: nat, r: nat)
    requires p <= |cfg.order|
  {
    && s.cfg == cfg && cfg.width == 1 && s.next == p && s.inFlight == {} && s.phase == Working
    && s.progress.batchId == batchId && r < |s.progress.results| == |cfg.order|
    && (forall q :: 0 <= q < r ==> StageRow(s.progress.results[q], batchId, q, q in Closed(cfg.order[..p], r)))
    && s.progress.results[r].status != Completed && s.progress.results[r].jobId == RowName(batchId, r)
  }

  predicate StageRow(row: Row, batchId: string, q: nat, closed: bool) {
    if closed then row.status == Completed && row.jobId == "" else row == FreshRow(batchId, q)
  }

  lemma EmptyHolds(i: nat)
    ensures !Contains("", Needle(i))
  {
  }

  lemma StageHolds(row: Row, batchId: string, n: nat, q: nat, closed: bool, i: nat)
    requires StageRow(row, batchId, q, closed) && Spotless(batchId, n) && i < n
    ensures Contains(row.jobId, Needle(i)) <==> !closed && Begins(i, q)
  {
    EmptyHolds(i);
    NameContainsIff(batchId, q, i);
  }

  lemma StageFinds(s: State, batchId: string, cfg: Config, p: nat, r: nat, i: nat)
    requires p <= |cfg.order| && Stage(s, batchId, cfg, p, r) && Spotless(batchId, |cfg.order|) && i < |cfg.order|
    ensures var k := FindRow(s.progress.results, Needle(i));
      && (i > r ==> k > r) && (i == r ==> k == r)
      && (i < r ==>
            var a := NextOpen(i, i, Closed(cfg.order[..p], r), r);
            if a < r then k == a else k >= r && (k == r <==> Begins(i, r)))
  {
    hide Contains, RowName, Spotless, Begins, Closed, StageRow;
    var rows, closed := s.progress.results, Closed(cfg.order[..p], r);
    var k := FindRow(rows, Needle(i));
    forall q: nat | q < r
      ensures Contains(rows[q].jobId, Needle(i)) <==> q !in closed && Begins(i, q)
      ensures q < i ==> !Begins(i, q)
    {
      StageHolds(rows[q], batchId, |cfg.order|, q, q in closed, i);
      NotBegun(i, q);
    }
    NameContainsIff(batchId, r, i);
    Spotted(batchId, |cfg.order|, i);
    NotBegun(i, r);
    RowNameContains(batchId, r);
    if i < r {
      var a := NextOpen(i, i, closed, r);
      assert a < r ==> Contains(rows[a].jobId, Needle(i));
    }
  }

  lemma NotBegun(i: nat, q: nat)
    ensures q < i ==> !Begins(i, q)
    ensures Begins(i, q) <==> Decimal(i) <= Decimal(q)
  {
    if q < i {
      NoEarlierPrefix(i, q);
    }
  }

  lemma Spotted(batchId: string, n: nat, i: nat)
    requires Spotless(batchId, n) && i < n
    ensures !Contains(batchId, Needle(i))
  {
  }

  /** Row r's own job fails; every other ends well. */
  function Chosen(i: nat, r: nat): Outcome { if i == r then Failure(0) else Success("", 0) }

  /** The next row is started. */
  function Started(s: State, row: nat): State { s.(next := s.next + 1, inFlight := {row}) }

  lemma StageStarts(start: State, events: seq<Event>, s: State, batchId: string, cfg: Config, p: nat, r: nat)
    requires p < |cfg.order| && Stage(s, batchId, cfg, p, r) && Run(start, events) == Some(s)
    ensures Run(start, events + [NextChunk]) == Some(Started(s, cfg.order[p]))
  {
    hide Closed, StageRow, Run;
    RunExtends(start, events, NextChunk);
    assert Chunk(s.cfg, s.next) == [cfg.order[p]];
    assert Members([cfg.order[p]]) == {cfg.order[p]};
  }

  lemma StageStep(s: State, batchId: string, cfg: Config, p: nat, r: nat)
    requires p < |cfg.order| && Stage(s, batchId, cfg, p, r) && Spotless(batchId, |cfg.order|) && RowsOf(cfg.order)
    requires !RobbedAt(cfg.order, cfg.continueOnError, r, p) && (cfg.continueOnError || r !in cfg.order[..p + 1])
    ensures Stage(Step(Started(s, cfg.order[p]), JobEnds(cfg.order[p], Chosen(cfg.order[p], r))), batchId, cfg, p + 1, r)
  {
    hide Closed, NextOpen, Begins, Spotless, FindRow, Contains, RowName, FreshRow;
    var i := cfg.order[p];
    assert i in cfg.order;
    StageFinds(s, batchId, cfg, p, r, i);
    assert cfg.order[..p + 1] == cfg.order[..p] + [i];
    ClosedMore(cfg.order[..p], r, i);
  }

  lemma StageBegins(batchId: string, cfg: Config, r: nat)
    requires cfg.width == 1 && r < |cfg.order|
    ensures Stage(Start(batchId, cfg), batchId, cfg, 0, r)
  {
  }

  lemma {:induction false} Reaches(batchId: string, cfg: Config, p: nat, r: nat) returns (events: seq<Event>, s: State)
    requires cfg.width == 1 && r < |cfg.order| && p <= |cfg.order| && Spotless(batchId, |cfg.order|) && RowsOf(cfg.order)
    requires forall q :: 0 <= q < p ==> !RobbedAt(cfg.order, cfg.continueOnError, r, q)
    requires cfg.continueOnError || r !in cfg.order[..p]
    ensures Run(Start(batchId, cfg), events) == Some(s) && Stage(s, batchId, cfg, p, r)
    ensures SpotlessRun(events, |cfg.order|)
  {
    hide Run, Stage, RobbedAt, Step, Spotless;
    var start := Start(batchId, cfg);
    if p == 0 {
      events, s := [], start;
      RunStarts(start);
      StageBegins(batchId, cfg, r);
    } else {
      assert cfg.order[..p] == cfg.order[..p - 1] + [cfg.order[p - 1]];
      events, s := Reaches(batchId, cfg, p - 1, r);
      var i := cfg.order[p - 1];
      var e := JobEnds(i, Chosen(i, r));
      StageStarts(start, events, s, batchId, cfg, p - 1, r);
      RunExtends(start, events + [NextChunk], e);
      StageStep(s, batchId, cfg, p - 1, r);
      SpotlessMore(events, e, |cfg.order|);
      events, s := events + [NextChunk] + [e], Step(Started(s, i), e);
    }
  }

  lemma SpotlessMore(events: seq<Event>, e: Event, n: nat)
    requires SpotlessRun(events, n) && e.JobEnds? && (e.outcome.Success? ==> e.outcome.jobId == "")
    ensures SpotlessRun(events + [NextChunk] + [e], n)
  {
    hide Contains;
    forall k | 0 <= k < n ensures !Contains("", Needle(k)) {
      EmptyHolds(k);
    }
  }

  /** A run in which another job's success is recorded in row r. */
  lemma RobbedReached(batchId: string, order: seq<nat>, cont: bool, r: nat) returns (events: seq<Event>)
    requires Spotless(batchId, |order|) && RowsOf(order) && r < |order| && Robbed(order, cont, r)
    ensures SpotlessRun(events, |order|)
    ensures var run := Run(Start(batchId, Config(order, 1, cont)), events);
      && run.Some? && r < |run.value.progress.results|
      && run.value.progress.results[r].status == Completed
      && run.value.progress.results[r] != RowAfter(batchId, r, events)
  {
    hide Run, Stage, RobbedAt, Step, Spotless, Named;
    var cfg, start := Config(order, 1, cont), Start(batchId, Config(order, 1, cont));
    var p := FirstRobbed(order, cont, r);
    NotBefore(order, cont, r, p);
    var before, s := Reaches(batchId, cfg, p, r);
    var e := JobEnds(order[p], Success("", 0));
    StageStarts(start, before, s, batchId, cfg, p, r);
    RunExtends(start, before + [NextChunk], e);
    events := before + [NextChunk] + [e];
    SpotlessMore(before, e, |order|);
    StageRobbed(s, batchId, cfg, p, r);
    OwnOrigin(batchId, r, events);
    OtherOrigin(batchId, order[p], r);
  }

  lemma FirstRobbed(order: seq<nat>, cont: bool, r: nat) returns (p: nat)
    requires Robbed(order, cont, r)
    ensures p < |order| && RobbedAt(order, cont, r, p)
    ensures forall q :: 0 <= q < p ==> !RobbedAt(order, cont, r, q)
  {
    hide RobbedAt;
    p := 0;
    while !RobbedAt(order, cont, r, p)
      invariant p < |order| && forall q :: 0 <= q < p ==> !RobbedAt(order, cont, r, q)
      invariant exists q :: p <= q < |order| && RobbedAt(order, cont, r, q)
      decreases |order| - p
    {
      p := p + 1;
    }
  }

  lemma NotBefore(order: seq<nat>, cont: bool, r: nat, p: nat)
    requires p < |order| && RobbedAt(order, cont, r, p)
    ensures order[p] < r && (cont || r !in order[..p])
  {
    hide Closed, NextOpen;
  }

  /** At the place where row r can be robbed, the job that ends there lands on it. */
  lemma StageRobbed(s: State, batchId: string, cfg: Config, p: nat, r: nat)
    requires p < |cfg.order| && Stage(s, batchId, cfg, p, r) && Spotless(batchId, |cfg.order|) && RowsOf(cfg.order)
    requires RobbedAt(cfg.order, cfg.continueOnError, r, p)
    ensures var rows := Step(Started(s, cfg.order[p]), JobEnds(cfg.order[p], Success("", 0))).progress.results;
      && r < |rows| && rows[r].status == Completed && rows[r].originalJobId == Some(RowName(batchId, cfg.order[p]))
  {
    hide Closed, NextOpen, Begins, Spotless, FindRow, Contains, RowName, FreshRow;
    var i := cfg.order[p];
    assert i in cfg.order;
    StageFinds(s, batchId, cfg, p, r, i);
  }

  lemma {:induction false} OwnOrigin(batchId: string, row: nat, events: seq<Event>)
    ensures var id := RowAfter(batchId, row, events).originalJobId; id == None || id == Some(RowName(batchId, row))
  {
    hide RowName;
    if events != [] {
      OwnOrigin(batchId, row, events[..|events| - 1]);
    }
  }

  lemma OtherOrigin(batchId: string, i: nat, r: nat)
    requires i != r
    ensures RowName(batchId, i) != RowName(batchId, r)
  {
    hide Decimal;
    if RowName(batchId, i) == RowName(batchId, r) {
      assert Needle(i) == RowName(batchId, i)[|batchId|..] == Needle(r);
      assert Decimal(i) == Needle(i)[5..] == Needle(r)[5..] == Decimal(r);
      DecimalInjective(i, r);
    }
  }

  // ---------------------------------------------------------------- the exact condition

  /**
    The exact condition on the order, whatever rows it repeats or leaves out: a row records its own job's first
    success, or else its last failure, in every run if and only if no other job can reach it.
  */
  lemma {:induction false} OwnRecordIff(batchId: string, order: seq<nat>, cont: bool, r: nat)
    requires Spotless(batchId, |order|) && RowsOf(order) && r < |order|
    ensures (forall events :: SpotlessRun(events, |order|) && Run(Start(batchId, Config(order, 1, cont)), events).Some?
               ==> Records(batchId, Config(order, 1, cont), events, r))
       <==> !Robbed(order, cont, r)
  {
    hide Run, Spotless, SpotlessRun, Robbed, Named, RowAfter, Tracks;
    var cfg := Config(order, 1, cont);
    if Robbed(order, cont, r) {
      var events := RobbedReached(batchId, order, cont, r);
    } else {
      forall events | SpotlessRun(events, |order|) && Run(Start(batchId, cfg), events).Some?
        ensures Records(batchId, cfg, events, r)
      {
        OwnKept(batchId, order, cont, events, r);
        TracksRecords(Run(Start(batchId, cfg), events).value, batchId, events, r);
      }
    }
  }

  ghost predicate Records(batchId: string, cfg: Config, events: seq<Event>, r: nat)
    requires Run(Start(batchId, cfg), events).Some?
  {
    var rows := Run(Start(batchId, cfg), events).value.progress.results;
    r < |rows| && rows[r] == RowAfter(batchId, r, events)
  }

  lemma TracksRecords(s: State, batchId: string, events: seq<Event>, r: nat)
    requires Tracks(s, batchId, EndedRows(events), r, RowAfter(batchId, r, events))
    ensures r < |s.progress.results| && s.progress.results[r] == RowAfter(batchId, r, events)
  {
  }

  // ---------------------------------------------------------------- jobs submitted again

  lemma {:induction false} NeverEnded(batchId: string, row: nat, events: seq<Event>)
    requires row !in EndedRows(events)
    ensures RowAfter(batchId, row, events) == FreshRow(batchId, row)
  {
    hide SettledRow;
    if events != [] {
      NeverEnded(batchId, row, events[..|events| - 1]);
    }
  }

  /** Row k is as it was at the start. */
  ghost predicate Untouched(batchId: string, cfg: Config, events: seq<Event>, k: nat)
    requires Run(Start(batchId, cfg), events).Some?
  {
    var rows := Run(Start(batchId, cfg), events).value.progress.results;
    k < |rows| && rows[k] == FreshRow(batchId, k)
  }

  ghost predicate Completes(batchId: string, cfg: Config, events: seq<Event>, k: nat)
    requires Run(Start(batchId, cfg), events).Some?
  {
    var rows := Run(Start(batchId, cfg), events).value.progress.results;
    k < |rows| && rows[k].status == Completed
  }

  /**
    A later row of a job object that was submitted again is never run. It stays pending in every run if and only
    if no other job can reach it, and some run completes it if and only if one can.
  */
  lemma {:induction false} LeftOutIff(batchId: string, jobs: seq<Job>, cont: bool, j: nat, k: nat)
    requires j < k < |jobs| && jobs[j].identity == jobs[k].identity && Spotless(batchId, |jobs|)
    ensures var cfg := Config(PriorityOrder(jobs), 1, cont);
      && ((forall events :: SpotlessRun(events, |jobs|) && Run(Start(batchId, cfg), events).Some?
             ==> Untouched(batchId, cfg, events, k))
          <==> !Robbed(PriorityOrder(jobs), cont, k))
      && ((exists events :: SpotlessRun(events, |jobs|) && Run(Start(batchId, cfg), events).Some?
             && Completes(batchId, cfg, events, k))
          <==> Robbed(PriorityOrder(jobs), cont, k))
  {
    hide Run, Spotless, SpotlessRun, Robbed, PriorityOrder, RowAfter;
    var order := PriorityOrder(jobs);
    var cfg := Config(order, 1, cont);
    PriorityRows(jobs);
    NeverVisited(jobs, j, k);
    forall r | r in order ensures r < |order| {
      var m :| 0 <= m < |order| && order[m] == r;
    }
    if Robbed(order, cont, k) {
      var events := RobbedReached(batchId, order, cont, k);
      assert Completes(batchId, cfg, events, k);
      assert !Untouched(batchId, cfg, events, k);
    } else {
      forall events | SpotlessRun(events, |jobs|) && Run(Start(batchId, cfg), events).Some?
        ensures Untouched(batchId, cfg, events, k) && !Completes(batchId, cfg, events, k)
      {
        LeftOutKept(batchId, order, cont, events, k);
      }
    }
  }

  lemma LeftOutKept(batchId: string, order: seq<nat>, cont: bool, events: seq<Event>, k: nat)
    requires Run(Start(batchId, Config(order, 1, cont)), events).Some? && RowsOf(order) && k < |order| && k !in order
    requires Spotless(batchId, |order|) && SpotlessRun(events, |order|) && !Robbed(order, cont, k)
    ensures var rows := Run(Start(batchId, Config(order, 1, cont)), events).value.progress.results;
      k < |rows| && rows[k] == FreshRow(batchId, k)
  {
    hide Run, Spotless, SpotlessRun, Robbed, RowAfter;
    OwnKept(batchId, order, cont, events, k);
    RunInTurn(batchId, order, cont, events);
    assert k !in EndedRows(events);
    NeverEnded(batchId, k, events);
  }

  /** A row can be reached only through a repeated row whose digits begin its own. */
  lemma ReachedByRepeat(order: seq<nat>, cont: bool, r: nat) returns (a: nat, b: nat)
    requires Robbed(order, cont, r)
    ensures a < b < |order| && order[a] == order[b] < r && Begins(order[a], r)
  {
    hide Begins;
    var p :| 0 <= p < |order| && RobbedAt(order, cont, r, p);
    BeginsSelf(order[p]);
    a, b := ClosedByRepeat(order, r, p);
  }

  lemma BeginsSelf(i: nat)
    ensures Begins(i, i)
  {
  }

  /** A row that has closed by the time it is run was run before, or a repeated row reached it. */
  lemma {:induction false} ClosedByRepeat(order: seq<nat>, r: nat, p: nat) returns (a: nat, b: nat)
    requires p < |order| && order[p] < r && Begins(order[p], r) && order[p] in Closed(order[..p], r)
    ensures a < b < |order| && order[a] == order[b] < r && Begins(order[a], r)
    decreases p
  {
    hide Begins;
    var i := order[p];
    var m := ClosedAt(order, r, p, i);
    assert order[..m + 1] == order[..m] + [order[m]];
    if order[m] == i {
      a, b := m, p;
    } else {
      BeginsLater(order[m], i, r);
      BeginsSelf(order[m]);
      a, b := ClosedByRepeat(order, r, m);
    }
  }

  /** The place at which row i closed. */
  lemma {:induction false} ClosedAt(order: seq<nat>, r: nat, p: nat, i: nat) returns (m: nat)
    requires p <= |order| && i in Closed(order[..p], r)
    ensures m < p && order[m] < r && NextOpen(order[m], order[m], Closed(order[..m], r), r) == i < r
  {
    hide Begins, NextOpen;
    assert p > 0;
    var front := order[..p - 1];
    assert order[..p] == front + [order[p - 1]];
    ClosedMore(front, r, order[p - 1]);
    if i in Closed(front, r) {
      m := ClosedAt(order, r, p - 1, i);
    } else {
      m := p - 1;
    }
  }

  /** A repeated row reaches r if its digits begin r and every row between that they begin was run before. */
  lemma RepeatReaches(order: seq<nat>, cont: bool, r: nat, a: nat, b: nat)
    requires a < b < |order| && order[a] == order[b] < r && Begins(order[a], r)
    requires forall q :: order[a] < q < r && Begins(order[a], q) ==> q in order[..b]
    requires cont || r !in order[..b]
    ensures RobbedAt(order, cont, r, b)
  {
    hide Begins, Closed, NextOpen;
    var i, closed := order[b], Closed(order[..b], r);
    forall q | i <= q < r && Begins(i, q) ensures q in closed {
      if q == i {
        assert order[..b][a] == i;
      }
      RunCloses(order[..b], r, q);
    }
  }

  lemma {:induction false} RunCloses(order: seq<nat>, r: nat, q: nat)
    requires q in order && q < r
    ensures q in Closed(order, r)
  {
    hide Begins;
    var front, i := order[..|order| - 1], order[|order| - 1];
    assert order == front + [i];
    if i == q {
      BeginsSelf(q);
    } else {
      RunCloses(front, r, q);
    }
  }

  /** In a batch of at most ten jobs no job reaches another's row. */
  lemma TenOwn(order: seq<nat>, cont: bool, r: nat)
    requires r < |order| <= 10
    ensures !Robbed(order, cont, r)
  {
    hide Closed, NextOpen;
    forall p | 0 <= p < |order| ensures !RobbedAt(order, cont, r, p) {
      if order[p] < r {
        assert Decimal(order[p]) == [Digit(order[p])] && Decimal(r) == [Digit(r)];
        assert Decimal(order[p])[0] != Decimal(r)[0];
      }
    }
  }
}
