/**
  What the batches of src/compute-job-queue/queue.service.ts do with the jobs' own fields: the order that
  priorities give, what each row says, how many jobs run at once, and the status of the batch.
*/
module BatchReports {
  import opened Wrappers
  import opened Text
  import opened BatchQueue

  // ---------------------------------------------------------------- priorities

  /** A job that asks for a may run before one that asks for b: lower numbers go first, and none counts as ten. */
  predicate MayPrecede(a: Option<int>, b: Option<int>) {
    match (a, b)
    case (Some(x), Some(y)) => x <= y
    case (Some(x), None) => x <= 10
    case (None, Some(y)) => 10 <= y
    case (None, None) => true
  }

  /** One job object asks for one priority. */
  ghost predicate OnePriority(jobs: seq<Job>) {
    forall j, k :: 0 <= j < |jobs| && 0 <= k < |jobs| && jobs[j].identity == jobs[k].identity ==> jobs[j] == jobs[k]
  }

  ghost predicate Ascending(s: seq<Job>) {
    forall j, k :: 0 <= j <= k < |s| ==> MayPrecede(s[j].priority, s[k].priority)
  }

  lemma {:induction false} PlaceAscending(job: Job, s: seq<Job>)
    requires Ascending(s)
    ensures Ascending(PlaceJob(job, s))
  {
    if s == [] || PriorityOf(job) <= PriorityOf(s[0]) {
    } else {
      PlaceAscending(job, s[1..]);
      PlaceJobKeeps(job, s[1..]);
      var rest := PlaceJob(job, s[1..]);
      forall k | 0 <= k < |rest| ensures MayPrecede(s[0].priority, rest[k].priority) {
        assert rest[k] in multiset(rest);
        assert rest[k] == job || rest[k] in s[1..];
      }
    }
  }

  lemma {:induction false} SortAscending(jobs: seq<Job>)
    ensures Ascending(SortJobs(jobs))
  {
    if jobs != [] {
      SortAscending(jobs[1..]);
      PlaceAscending(jobs[0], SortJobs(jobs[1..]));
    }
  }

  /**
    The priority strategy runs its jobs by rising priority number, a job without one among those that ask for
    ten; with distinct jobs those that ask for the same run in the order of submission.
  */
  lemma PrioritiesAscend(jobs: seq<Job>)
    requires OnePriority(jobs)
    ensures var order := PriorityOrder(jobs);
      && |order| == |jobs| && (forall k :: 0 <= k < |jobs| ==> order[k] < |jobs|)
      && (forall j, k :: 0 <= j < k < |jobs| ==> MayPrecede(jobs[order[j]].priority, jobs[order[k]].priority))
      && (DistinctJobs(jobs) ==>
            forall j, k :: 0 <= j < k < |jobs| && MayPrecede(jobs[order[k]].priority, jobs[order[j]].priority)
              ==> order[j] < order[k])
  {
    hide PlaceJob, SortJobs, Ranked;
    PriorityRows(jobs);
    SortAscending(jobs);
    SortJobsKeeps(jobs);
    var s, order := SortJobs(jobs), PriorityOrder(jobs);
    forall k | 0 <= k < |jobs| ensures jobs[order[k]] == s[k] {
      assert s[k] in multiset(s);
      var i :| 0 <= i < |jobs| && jobs[i] == s[k];
    }
    if DistinctJobs(jobs) {
      PriorityOrderRanked(jobs);
    }
  }

  // ---------------------------------------------------------------- rows

  /** A row that waits for its job. */
  predicate SaysPending(row: Row, batchId: string, i: nat) {
    row == Row(batchId + "-job-" + Decimal(i), None, Pending, None, None)
  }

  /** A row whose job ended says how: with the queue's id and the result, or with its own name and the error. */
  predicate SaysOutcome(row: Row, batchId: string, i: nat, o: Outcome) {
    match o
    case Success(jobId, result) => row == Row(jobId, Some(batchId + "-job-" + Decimal(i)), Completed, Some(result), None)
    case Failure(error) => row == Row(batchId + "-job-" + Decimal(i), None, Failed, None, Some(error))
  }

  lemma RowSays(batchId: string, i: nat, o: Outcome)
    ensures SaysPending(FreshRow(batchId, i), batchId, i)
    ensures SaysOutcome(SettledRow(batchId, i, FreshRow(batchId, i), o), batchId, i, o)
  {
    assert batchId + ("-job-" + Decimal(i)) == batchId + "-job-" + Decimal(i);
  }

  /** In every run and at every moment, a row whose job has ended says how it ended. */
  lemma EndedRowSays(batchId: string, cfg: Config, events: seq<Event>, k: nat)
    requires GoodBatch(batchId, cfg) && HarmlessRun(events, cfg)
    requires Run(Start(batchId, cfg), events).Some? && k < |events| && events[k].JobEnds?
    ensures var row, rows := events[k].row, Run(Start(batchId, cfg), events).value.progress.results;
      row < |rows| && SaysOutcome(rows[row], batchId, row, events[k].outcome)
  {
    hide Run, SaysOutcome, GoodBatch, HarmlessRun;
    RowRecords(batchId, cfg, events, k);
    RowSays(batchId, events[k].row, events[k].outcome);
  }

  /** And one whose job has not ended says that it is pending. */
  lemma WaitingRowSays(batchId: string, cfg: Config, events: seq<Event>, row: nat)
    requires GoodBatch(batchId, cfg) && HarmlessRun(events, cfg) && row < |cfg.order|
    requires Run(Start(batchId, cfg), events).Some?
    requires forall k :: 0 <= k < |events| && events[k].JobEnds? ==> events[k].row != row
    ensures var rows := Run(Start(batchId, cfg), events).value.progress.results;
      row < |rows| && SaysPending(rows[row], batchId, row)
  {
    hide Run, GoodBatch, HarmlessRun, SaysPending, Group, Tally, Sound, Aligned, EarlierDone, LatestChunk;
    Reachable(batchId, cfg, events);
    SettlesOnce(batchId, cfg, events, row);
    NoEnds(events, row);
    var s := Run(Start(batchId, cfg), events).value;
    assert RowOk(s, row);
    RowSays(batchId, row, Failure(0));
  }

  lemma {:induction false} NoEnds(events: seq<Event>, row: nat)
    requires forall k :: 0 <= k < |events| && events[k].JobEnds? ==> events[k].row != row
    ensures Ends(events, row) == 0
  {
    if events != [] {
      NoEnds(events[..|events| - 1], row);
    }
  }

  // ---------------------------------------------------------------- how many run at once

  /** The most jobs that a strategy lets run at once: one by one, or as many as configured, five if nothing is. */
  function AtOnce(strategy: Strategy, maxConcurrency: nat): nat {
    match strategy
    case Sequential => 1
    case PriorityBased => 1
    case _ => if maxConcurrency > 0 then maxConcurrency else 5
  }

  lemma WidthIs(strategy: Strategy, jobs: seq<Job>, maxConcurrency: nat, cont: bool)
    ensures BatchConfig(strategy, jobs, maxConcurrency, cont).width == AtOnce(strategy, maxConcurrency)
    ensures BatchConfig(strategy, jobs, maxConcurrency, cont).continueOnError == cont
    ensures |BatchConfig(strategy, jobs, maxConcurrency, cont).order| == |jobs|
    ensures strategy != PriorityBased ==>
      forall k :: 0 <= k < |jobs| ==> BatchConfig(strategy, jobs, maxConcurrency, cont).order[k] == k
  {
    hide PriorityOrder;
    PriorityRows(jobs);
  }

  lemma {:induction false} MembersAre(rows: seq<nat>)
    requires forall j, k :: 0 <= j < k < |rows| ==> rows[j] != rows[k]
    ensures |Members(rows)| == |rows|
  {
    MembersSize(rows);
  }

  /** Whenever jobs are started, they are the next of the batch, as many as may run at once or all that are left. */
  lemma StartsNext(s: State)
    requires Enabled(s, NextChunk) && s.next < |s.cfg.order| && s.cfg.width > 0 && Permutes(s.cfg.order, |s.cfg.order|)
    ensures var t := Step(s, NextChunk);
      && t.next == Min(s.next + s.cfg.width, |s.cfg.order|)
      && |t.inFlight| == t.next - s.next
      && (forall r :: r in t.inFlight <==> r in s.cfg.order[s.next..t.next])
      && t.progress == s.progress
  {
    hide Settle, Members, Permutes;
    var t, rows := Step(s, NextChunk), Chunk(s.cfg, s.next);
    assert rows == s.cfg.order[s.next..t.next];
    DistinctPart(s.cfg.order, s.next, t.next);
    MembersAre(rows);
  }

  lemma DistinctPart(order: seq<nat>, from: nat, to: nat)
    requires Permutes(order, |order|) && from <= to <= |order|
    ensures forall j, k :: 0 <= j < k < to - from ==> order[from..to][j] != order[from..to][k]
  {
    forall j, k | 0 <= j < k < to - from ensures order[from..to][j] != order[from..to][k] {
      assert order[from + j] != order[from + k];
    }
  }

  /** No more jobs than that are ever in flight. */
  lemma {:induction false} NeverMore(batchId: string, cfg: Config, events: seq<Event>)
    requires cfg.width > 0 && Run(Start(batchId, cfg), events).Some?
    ensures var s := Run(Start(batchId, cfg), events).value;
      s.cfg == cfg && s.next <= |cfg.order| && |s.inFlight| <= cfg.width
  {
    hide Settle, Members;
    if events != [] {
      var front, e := events[..|events| - 1], events[|events| - 1];
      NeverMore(batchId, cfg, front);
      var s := Run(Start(batchId, cfg), front).value;
      if e.NextChunk? && s.next < |cfg.order| {
        FewMembers(Chunk(cfg, s.next));
      }
    }
  }

  lemma {:induction false} FewMembers(rows: seq<nat>)
    ensures |Members(rows)| <= |rows|
  {
    if rows != [] {
      FewMembers(rows[..|rows| - 1]);
    }
  }

  // ---------------------------------------------------------------- the status

  /** A batch that nobody cancels is running while it works, failed once a failure stopped it, and completed when it returns. */
  lemma {:induction false} StatusFollows(batchId: string, cfg: Config, events: seq<Event>)
    requires Run(Start(batchId, cfg), events).Some? && Cancel !in events
    requires GoodBatch(batchId, cfg) && HarmlessRun(events, cfg)
    ensures var s := Run(Start(batchId, cfg), events).value;
      s.progress.status ==
        match s.phase
        case Working => Running
        case Returned => Done
        case _ => Broken
  {
    hide Inv, Settle, Step, Enabled, Sound, Permutes;
    if events == [] {
      StartsRunning(batchId, cfg);
    } else {
      var front, e := events[..|events| - 1], events[|events| - 1];
      assert events == front + [e] && e in events;
      StatusFollows(batchId, cfg, front);
      Reachable(batchId, cfg, front);
      StatusNext(Run(Start(batchId, cfg), front).value, e);
    }
  }

  lemma StartsRunning(batchId: string, cfg: Config)
    ensures Start(batchId, cfg).progress.status == Running && Start(batchId, cfg).phase == Working
    ensures Start(batchId, cfg).progress.completedJobs == 0 && Start(batchId, cfg).progress.failedJobs == 0
  {
  }

  lemma StatusNext(s: State, e: Event)
    requires Inv(s) && Enabled(s, e) && HarmlessEvent(e, s.cfg) && e != Cancel
    requires s.progress.status == match s.phase case Working => Running case Returned => Done case _ => Broken
    ensures var t := Step(s, e); t.progress.status == match t.phase case Working => Running case Returned => Done case _ => Broken
  {
    hide Settle, Members, Chunk, RowOk, Sound, Tally;
    if e.JobEnds? {
      NoneTaken(s, e.row);
      SettleHits(s.progress, e.row, e.outcome, s.cfg.continueOnError);
    }
  }

  /** A batch can be cancelled at any moment; it then reads cancelled, and nothing else about it changes. */
  lemma CancelAnyTime(start: State, events: seq<Event>)
    requires Run(start, events).Some?
    ensures var s := Run(start, events).value;
      Run(start, events + [Cancel]) == Some(s.(progress := s.progress.(status := Cancelled)))
  {
    var all := events + [Cancel];
    assert all[..|all| - 1] == events;
  }
}
