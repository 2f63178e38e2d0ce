/**
  The batch orchestrator of src/compute-job-queue/queue.service.ts: one progress record shared by
  the jobs of a batch, whose rows are found again by a substring search, under the sequential,
  chunk-parallel and priority strategies.

  The code between two awaits is one atomic event of a state machine, so a theorem about every run
  of the machine is a theorem about every interleaving.
*/
module BatchQueue {
  import opened Wrappers
  import opened Text

  type Payload = int

  datatype RowStatus = Pending | Completed | Failed

  datatype Row = Row(
    jobId: string, originalJobId: Option<string>, status: RowStatus,
    result: Option<Payload>, error: Option<Payload>)

  datatype BatchStatus = Running | Done | Broken | Cancelled

  datatype Progress = Progress(
    batchId: string, results: seq<Row>, completedJobs: nat, failedJobs: nat, status: BatchStatus)

  /** How a job ends: with the queue's id for it and a result, or with an error. */
  datatype Outcome = Success(jobId: string, result: Payload) | Failure(error: Payload)

  function FreshRow(batchId: string, i: nat): Row {
    Row(RowName(batchId, i), None, Pending, None, None)
  }

  function FreshRows(batchId: string, n: nat): (rows: seq<Row>)
    ensures |rows| == n && forall i :: 0 <= i < n ==> rows[i] == FreshRow(batchId, i)
  {
    if n == 0 then [] else FreshRows(batchId, n - 1) + [FreshRow(batchId, n - 1)]
  }

  function Fresh(batchId: string, n: nat): Progress {
    Progress(batchId, FreshRows(batchId, n), 0, 0, Running)
  }

  /** results.findIndex(r => r.jobId.includes(needle)); the length stands for -1. */
  function FindRow(rows: seq<Row>, needle: string): (k: nat)
    ensures k <= |rows|
    ensures k < |rows| ==> Contains(rows[k].jobId, needle)
    ensures forall j :: 0 <= j < k ==> !Contains(rows[j].jobId, needle)
  {
    if rows == [] || Contains(rows[0].jobId, needle) then 0 else 1 + FindRow(rows[1..], needle)
  }

  function SettledRow(batchId: string, i: nat, row: Row, o: Outcome): Row {
    match o
    case Success(jobId, result) =>
      row.(jobId := jobId, originalJobId := Some(RowName(batchId, i)), status := Completed, result := Some(result))
    case Failure(error) =>
      row.(jobId := RowName(batchId, i), status := Failed, error := Some(error))
  }

  /** The progress after job i ended; a failure stops the batch unless it continues on errors. */
  function Settle(p: Progress, i: nat, o: Outcome, continueOnError: bool): (Progress, bool) {
    var k := FindRow(p.results, Needle(i));
    if k == |p.results| then (p, false)
    else
      var q := p.(results := p.results[k := SettledRow(p.batchId, i, p.results[k], o)]);
      match o
      case Success(_, _) => (q.(completedJobs := q.completedJobs + 1), false)
      case Failure(_) =>
        var r := q.(failedJobs := q.failedJobs + 1);
        if continueOnError then (r, false) else (r.(status := Broken), true)
  }

  // ---------------------------------------------------------------- the row search

  /** The identifier hides no row's needle; the needle of row 0 is harmless, as row 0 comes first. */
  ghost predicate Clean(id: string, n: nat) {
    forall k :: 1 <= k < n ==> !Contains(id, Needle(k))
  }

  /** A row before i is not taken for i, whatever its state. */
  ghost predicate Passes(row: Row, batchId: string, j: nat, n: nat) {
    row.jobId == RowName(batchId, j) || Clean(row.jobId, n)
  }

  lemma NotTakenFor(batchId: string, row: Row, j: nat, i: nat, n: nat)
    requires Clean(batchId, n) && j < i < n && Passes(row, batchId, j, n)
    ensures !Contains(row.jobId, Needle(i))
  {
    NameContainsIff(batchId, j, i);
    NoEarlierPrefix(i, j);
  }

  /** With clean identifiers the search for row i finds row i, as long as row i has not completed. */
  lemma SearchFinds(batchId: string, rows: seq<Row>, i: nat)
    requires Clean(batchId, |rows|) && i < |rows| && rows[i].jobId == RowName(batchId, i)
    requires forall j :: 0 <= j < i ==> Passes(rows[j], batchId, j, |rows|)
    ensures FindRow(rows, Needle(i)) == i
  {
    RowNameContains(batchId, i);
    forall j | 0 <= j < i ensures !Contains(rows[j].jobId, Needle(i)) {
      NotTakenFor(batchId, rows[j], j, i, |rows|);
    }
  }

  /** The search is right for every row of a fresh batch exactly when the batch id is clean. */
  lemma FreshSearchIff(batchId: string, n: nat)
    ensures (forall i :: 0 <= i < n ==> FindRow(FreshRows(batchId, n), Needle(i)) == i) <==> Clean(batchId, n)
  {
    var rows := FreshRows(batchId, n);
    if Clean(batchId, n) {
      forall i | 0 <= i < n ensures FindRow(rows, Needle(i)) == i {
        SearchFinds(batchId, rows, i);
      }
    } else {
      var k :| 1 <= k < n && Contains(batchId, Needle(k));
      NameContainsIff(batchId, 0, k);
      assert Contains(rows[0].jobId, Needle(k));
    }
  }

  // ---------------------------------------------------------------- the order of the jobs

  /** A job is an object: its identity and the priority it asks for. */
  datatype Job = Job(identity: nat, priority: Option<int>)

  function PriorityOf(job: Job): int { if job.priority.Some? then job.priority.value else 10 }

  function PlaceJob(job: Job, sorted: seq<Job>): seq<Job> {
    if sorted == [] || PriorityOf(job) <= PriorityOf(sorted[0]) then [job] + sorted
    else [sorted[0]] + PlaceJob(job, sorted[1..])
  }

  /** The stable sort by priority, lowest number first. */
  function SortJobs(jobs: seq<Job>): seq<Job> {
    if jobs == [] then [] else PlaceJob(jobs[0], SortJobs(jobs[1..]))
  }

  /** jobs.indexOf(job): the first place of that very object, or the length. */
  function IndexOf(jobs: seq<Job>, job: Job): (k: nat)
    ensures k <= |jobs|
    ensures k < |jobs| ==> jobs[k].identity == job.identity
    ensures forall j :: 0 <= j < k ==> jobs[j].identity != job.identity
  {
    if jobs == [] || jobs[0].identity == job.identity then 0 else 1 + IndexOf(jobs[1..], job)
  }

  function Indices(jobs: seq<Job>, sorted: seq<Job>): (order: seq<nat>)
    ensures |order| == |sorted| && forall k :: 0 <= k < |sorted| ==> order[k] == IndexOf(jobs, sorted[k])
  {
    if sorted == [] then [] else [IndexOf(jobs, sorted[0])] + Indices(jobs, sorted[1..])
  }

  /** The rows in the order in which the priority strategy runs them. */
  function PriorityOrder(jobs: seq<Job>): seq<nat> { Indices(jobs, SortJobs(jobs)) }

  function Identity(n: nat): (order: seq<nat>)
    ensures |order| == n && forall k :: 0 <= k < n ==> order[k] == k
  {
    if n == 0 then [] else Identity(n - 1) + [n - 1]
  }

  /** An order in which each of n rows comes once. */
  ghost predicate Permutes(order: seq<nat>, n: nat) {
    && |order| == n && (forall k :: 0 <= k < n ==> order[k] < n)
    && (forall j, k :: 0 <= j < k < n ==> order[j] != order[k])
  }

  ghost predicate DistinctJobs(jobs: seq<Job>) {
    forall j, k :: 0 <= j < k < |jobs| ==> jobs[j].identity != jobs[k].identity
  }

  lemma {:induction false} PlaceJobKeeps(job: Job, sorted: seq<Job>)
    ensures multiset(PlaceJob(job, sorted)) == multiset{job} + multiset(sorted)
  {
    if sorted == [] || PriorityOf(job) <= PriorityOf(sorted[0]) {
    } else {
      PlaceJobKeeps(job, sorted[1..]);
      assert sorted == [sorted[0]] + sorted[1..];
    }
  }

  lemma {:induction false} SortJobsKeeps(jobs: seq<Job>)
    ensures multiset(SortJobs(jobs)) == multiset(jobs) && |SortJobs(jobs)| == |jobs|
  {
    if jobs != [] {
      SortJobsKeeps(jobs[1..]);
      PlaceJobKeeps(jobs[0], SortJobs(jobs[1..]));
      assert jobs == [jobs[0]] + jobs[1..];
      assert |multiset(SortJobs(jobs))| == |multiset(jobs)|;
    }
  }

  lemma IndexOfSelf(jobs: seq<Job>, k: nat)
    requires DistinctJobs(jobs) && k < |jobs|
    ensures IndexOf(jobs, jobs[k]) == k
  {
  }

  lemma TwiceCounts(s: seq<Job>, j: nat, k: nat)
    requires j < k < |s| && s[j] == s[k]
    ensures multiset(s)[s[j]] >= 2
  {
    assert s == s[..k] + s[k..];
    assert s[..k][j] == s[j] && s[k..][0] == s[k];
    assert s[j] in multiset(s[..k]) && s[j] in multiset(s[k..]);
  }

  lemma {:induction false} DistinctCounts(jobs: seq<Job>, job: Job)
    requires DistinctJobs(jobs)
    ensures multiset(jobs)[job] <= 1
  {
    if jobs != [] {
      assert jobs == [jobs[0]] + jobs[1..];
      DistinctCounts(jobs[1..], job);
      if jobs[0] == job {
        assert job !in jobs[1..];
        assert job !in multiset(jobs[1..]);
      }
    }
  }

  lemma SortedDistinct(jobs: seq<Job>)
    requires DistinctJobs(jobs)
    ensures DistinctJobs(SortJobs(jobs))
  {
    SortJobsKeeps(jobs);
    var s := SortJobs(jobs);
    forall j, k | 0 <= j < k < |s| ensures s[j].identity != s[k].identity {
      assert s[j] in multiset(s) && s[k] in multiset(s);
      assert s[j] in jobs && s[k] in jobs;
      if s[j] == s[k] {
        TwiceCounts(s, j, k);
        DistinctCounts(jobs, s[j]);
      }
    }
  }

  /** The priority order visits every row once exactly when no job object is submitted twice. */
  lemma PriorityOrderIff(jobs: seq<Job>)
    ensures Permutes(PriorityOrder(jobs), |jobs|) <==> DistinctJobs(jobs)
  {
    var s, order := SortJobs(jobs), PriorityOrder(jobs);
    SortJobsKeeps(jobs);
    forall k | 0 <= k < |jobs| ensures order[k] < |jobs| {
      assert s[k] in multiset(s);
      assert s[k] in jobs;
    }
    if DistinctJobs(jobs) {
      SortedDistinct(jobs);
    } else {
      var j, k :| 0 <= j < k < |jobs| && jobs[j].identity == jobs[k].identity;
      NeverVisited(jobs, j, k);
      if Permutes(order, |jobs|) {
        Surjective(order, |jobs|, k);
      }
    }
  }

  lemma NeverVisited(jobs: seq<Job>, j: nat, k: nat)
    requires j < k < |jobs| && jobs[j].identity == jobs[k].identity
    ensures k !in PriorityOrder(jobs)
  {
  }

  function Below(n: nat): (rows: set<nat>)
    ensures |rows| == n && forall r: nat :: r in rows <==> r < n
  {
    if n == 0 then {} else Below(n - 1) + {n - 1}
  }

  function Members(order: seq<nat>): (rows: set<nat>)
    ensures forall r: nat :: r in rows <==> r in order
  {
    if order == [] then {}
    else
      assert order == order[..|order| - 1] + [order[|order| - 1]];
      Members(order[..|order| - 1]) + {order[|order| - 1]}
  }

  lemma {:induction false} MembersSize(order: seq<nat>)
    requires forall j, k :: 0 <= j < k < |order| ==> order[j] != order[k]
    ensures |Members(order)| == |order|
  {
    if order != [] {
      MembersSize(order[..|order| - 1]);
    }
  }

  lemma {:induction false} SubsetSize(a: set<nat>, b: set<nat>)
    requires a <= b
    ensures |a| <= |b|
  {
    if a != {} {
      var x :| x in a;
      SubsetSize(a - {x}, b - {x});
    }
  }

  /** A permutation of n rows reaches every one of them. */
  lemma Surjective(order: seq<nat>, n: nat, k: nat)
    requires Permutes(order, n) && k < n
    ensures k in order
  {
    MembersSize(order);
    if k !in order {
      SubsetSize(Members(order), Below(n) - {k});
    }
  }

  /** Lower numbers first, and ties in submission order. */
  predicate Precedes(jobs: seq<Job>, x: Job, y: Job) {
    || PriorityOf(x) < PriorityOf(y)
    || (PriorityOf(x) == PriorityOf(y) && IndexOf(jobs, x) < IndexOf(jobs, y))
  }

  ghost predicate Ranked(jobs: seq<Job>, s: seq<Job>) {
    forall j, k :: 0 <= j < k < |s| ==> Precedes(jobs, s[j], s[k])
  }

  lemma {:induction false} PlaceRanked(jobs: seq<Job>, x: Job, s: seq<Job>)
    requires Ranked(jobs, s) && forall y :: y in s ==> IndexOf(jobs, x) < IndexOf(jobs, y)
    ensures Ranked(jobs, PlaceJob(x, s))
  {
    if s == [] || PriorityOf(x) <= PriorityOf(s[0]) {
    } else {
      PlaceRanked(jobs, x, s[1..]);
      PlaceJobKeeps(x, s[1..]);
      var rest := PlaceJob(x, s[1..]);
      forall k | 0 <= k < |rest| ensures Precedes(jobs, s[0], rest[k]) {
        assert rest[k] in multiset(rest);
        assert rest[k] == x || rest[k] in s[1..];
      }
    }
  }

  lemma {:induction false} SortRanked(jobs: seq<Job>, i: nat)
    requires DistinctJobs(jobs) && i <= |jobs|
    ensures Ranked(jobs, SortJobs(jobs[i..]))
    decreases |jobs| - i
  {
    if i < |jobs| {
      SortRanked(jobs, i + 1);
      assert jobs[i..][1..] == jobs[i + 1..] && jobs[i..][0] == jobs[i];
      var rest := SortJobs(jobs[i + 1..]);
      SortJobsKeeps(jobs[i + 1..]);
      IndexOfSelf(jobs, i);
      forall y | y in rest ensures IndexOf(jobs, jobs[i]) < IndexOf(jobs, y) {
        assert y in multiset(rest);
        var k :| 0 <= k < |jobs[i + 1..]| && jobs[i + 1..][k] == y;
        IndexOfSelf(jobs, i + 1 + k);
      }
      PlaceRanked(jobs, jobs[i], rest);
    }
  }

  /** The priority order runs lower numbers first and equal ones in submission order. */
  lemma PriorityOrderRanked(jobs: seq<Job>)
    requires DistinctJobs(jobs)
    ensures var order := PriorityOrder(jobs);
      && Permutes(order, |jobs|)
      && forall j, k :: 0 <= j < k < |jobs| ==>
           || PriorityOf(jobs[order[j]]) < PriorityOf(jobs[order[k]])
           || (PriorityOf(jobs[order[j]]) == PriorityOf(jobs[order[k]]) && order[j] < order[k])
  {
    var s, order := SortJobs(jobs), PriorityOrder(jobs);
    PriorityOrderIff(jobs);
    SortJobsKeeps(jobs);
    SortRanked(jobs, 0);
    assert jobs[0..] == jobs;
    forall k | 0 <= k < |jobs| ensures jobs[order[k]] == s[k] {
      assert s[k] in multiset(s);
      var i :| 0 <= i < |jobs| && jobs[i] == s[k];
      IndexOfSelf(jobs, i);
    }
    forall j, k | 0 <= j < k < |jobs|
      ensures PriorityOf(jobs[order[j]]) < PriorityOf(jobs[order[k]])
              || (PriorityOf(jobs[order[j]]) == PriorityOf(jobs[order[k]]) && order[j] < order[k])
    {
      assert Precedes(jobs, s[j], s[k]);
    }
  }

  // ---------------------------------------------------------------- the machine

  /** The order of the rows, how many run at once, and whether a failure stops the batch. */
  datatype Config = Config(order: seq<nat>, width: nat, continueOnError: bool)

  /** Working; awaiting its rejection after a failure; or back at the caller, in one of two ways. */
  datatype Phase = Working | Rejecting | Rejected | Returned

  /** Rows order[..next] have been started; those in flight have not ended yet. */
  datatype State = State(cfg: Config, progress: Progress, next: nat, inFlight: set<nat>, phase: Phase)

  datatype Event = JobEnds(row: nat, outcome: Outcome) | NextChunk | Catch | Cancel

  function Chunk(cfg: Config, from: nat): seq<nat>
    requires from <= |cfg.order|
  {
    if from + cfg.width < |cfg.order| then cfg.order[from..from + cfg.width] else cfg.order[from..]
  }

  function Start(batchId: string, cfg: Config): State {
    State(cfg, Fresh(batchId, |cfg.order|), 0, {}, Working)
  }

  /** Jobs end in any order, even after the batch was rejected; the next chunk waits for all of the last. */
  predicate Enabled(s: State, e: Event) {
    match e
    case JobEnds(row, _) => row in s.inFlight
    case NextChunk => s.phase == Working && s.inFlight == {} && s.next <= |s.cfg.order|
    case Catch => s.phase == Rejecting
    case Cancel => true
  }

  function Step(s: State, e: Event): State
    requires Enabled(s, e)
  {
    match e
    case JobEnds(row, outcome) =>
      var (p, thrown) := Settle(s.progress, row, outcome, s.cfg.continueOnError);
      s.(progress := p, inFlight := s.inFlight - {row},
         phase := if thrown && s.phase == Working then Rejecting else s.phase)
    case NextChunk =>
      if s.next < |s.cfg.order| then
        var chunk := Chunk(s.cfg, s.next);
        s.(inFlight := Members(chunk), next := s.next + |chunk|)
      else s.(progress := s.progress.(status := Done), phase := Returned)
    case Catch => s.(progress := s.progress.(status := Broken), phase := Rejected)
    case Cancel => s.(progress := s.progress.(status := Cancelled))
  }

  /** Where a run ends, or None when one of its events was not enabled. */
  function Run(s: State, events: seq<Event>): Option<State> {
    if events == [] then Some(s)
    else
      match Run(s, events[..|events| - 1])
      case None => None
      case Some(t) =>
        var e := events[|events| - 1];
        if Enabled(t, e) then Some(Step(t, e)) else None
  }

  function Tally(rows: seq<Row>, status: RowStatus): nat {
    if rows == [] then 0
    else Tally(rows[..|rows| - 1], status) + if rows[|rows| - 1].status == status then 1 else 0
  }

  /** A row that has not ended: in flight or not yet started. */
  ghost predicate Waiting(s: State, row: nat)
    requires s.next <= |s.cfg.order|
  {
    row in s.inFlight || row in s.cfg.order[s.next..]
  }

  /** The number of the chunk that the p-th row to start belongs to. */
  function Group(p: nat, width: nat): nat
    requires width > 0
  {
    if p < width then 0 else 1 + Group(p - width, width)
  }

  /** A chunk starts at i. */
  predicate Aligned(i: nat, width: nat)
    requires width > 0
  {
    i == 0 || (i >= width && Aligned(i - width, width))
  }

  /**
    The search cannot miss: whenever the batch id contains the mark of a row, every row numbered before it
    runs in an earlier chunk, and a failure in that chunk would have stopped the batch.
  */
  ghost predicate Sound(batchId: string, cfg: Config)
    requires cfg.width > 0
  {
    forall p, q :: 0 <= p < |cfg.order| && 0 <= q < |cfg.order|
        && cfg.order[p] < cfg.order[q] && Contains(batchId, Needle(cfg.order[q]))
      ==> !cfg.continueOnError && Group(p, cfg.width) < Group(q, cfg.width)
  }

  /**
    The id that the queue gives the job of a row is harmless if it contains no mark of a row that comes later in
    the batch and may still be looked for once the job has ended: one in the same chunk or a later one.
  */
  ghost predicate Harmless(id: string, cfg: Config, row: nat)
    requires cfg.width > 0
  {
    forall p, q :: 0 <= p < |cfg.order| && 0 <= q < |cfg.order|
        && cfg.order[p] == row && row < cfg.order[q] && Group(p, cfg.width) <= Group(q, cfg.width)
      ==> !Contains(id, Needle(cfg.order[q]))
  }

  ghost predicate RowOk(s: State, row: nat)
    requires s.next <= |s.cfg.order| && row < |s.progress.results| && s.cfg.width > 0
  {
    var r, id := s.progress.results[row], s.progress.batchId;
    if Waiting(s, row) then r == FreshRow(id, row)
    else (r.status == Failed && r.jobId == RowName(id, row)) || (r.status == Completed && Harmless(r.jobId, s.cfg, row))
  }

  /** The rows in flight are of the last chunk started. */
  ghost predicate LatestChunk(s: State)
    requires s.cfg.width > 0 && s.next <= |s.cfg.order|
  {
    forall p, q :: 0 <= p < s.next && 0 <= q < |s.cfg.order| && s.cfg.order[q] in s.inFlight
      ==> Group(p, s.cfg.width) <= Group(q, s.cfg.width)
  }

  /** A batch that stops on errors has completed every row of an earlier chunk than one in flight. */
  ghost predicate EarlierDone(s: State)
    requires s.cfg.width > 0 && Permutes(s.cfg.order, |s.cfg.order|) && |s.progress.results| == |s.cfg.order| && s.next <= |s.cfg.order|
  {
    && (forall p, q :: 0 <= p < |s.cfg.order| && 0 <= q < |s.cfg.order|
            && s.cfg.order[q] in s.inFlight && Group(p, s.cfg.width) < Group(q, s.cfg.width)
          ==> s.progress.results[s.cfg.order[p]].status == Completed)
    && (s.phase == Working ==> forall p :: 0 <= p < s.next ==>
          s.cfg.order[p] in s.inFlight || s.progress.results[s.cfg.order[p]].status == Completed)
  }

  ghost predicate Counted(p: Progress) {
    p.completedJobs == Tally(p.results, Completed) && p.failedJobs == Tally(p.results, Failed)
  }

  /** What every reachable state satisfies. */
  ghost predicate Inv(s: State) {
    var n := |s.cfg.order|;
    && Permutes(s.cfg.order, n) && s.cfg.width > 0 && Sound(s.progress.batchId, s.cfg)
    && s.next <= n && |s.progress.results| == n && (s.next == n || Aligned(s.next, s.cfg.width))
    && (!s.cfg.continueOnError ==> EarlierDone(s)) && LatestChunk(s)
    && (forall r :: r in s.inFlight ==> r in s.cfg.order[..s.next])
    && (forall r :: 0 <= r < n ==> RowOk(s, r))
    && Counted(s.progress)
    && (s.phase == Returned ==> s.next == n && s.inFlight == {})
    && (s.phase == Rejecting || s.phase == Rejected ==> !s.cfg.continueOnError && s.progress.failedJobs > 0)
  }

  /** A job that ends well has a harmless id. */
  ghost predicate HarmlessEvent(e: Event, cfg: Config)
    requires cfg.width > 0
  {
    e.JobEnds? && e.outcome.Success? ==> Harmless(e.outcome.jobId, cfg, e.row)
  }

  lemma {:induction false} TallyUpdate(rows: seq<Row>, k: nat, row: Row, status: RowStatus)
    requires k < |rows|
    ensures Tally(rows[k := row], status)
         == Tally(rows, status) - (if rows[k].status == status then 1 else 0) + (if row.status == status then 1 else 0)
  {
    var updated := rows[k := row];
    if k < |rows| - 1 {
      TallyUpdate(rows[..|rows| - 1], k, row, status);
      assert updated[..|rows| - 1] == rows[..|rows| - 1][k := row];
    } else {
      assert updated[..k] == rows[..k];
    }
  }

  lemma {:induction false} TallyFresh(batchId: string, n: nat, status: RowStatus)
    ensures Tally(FreshRows(batchId, n), status) == if status == Pending then n else 0
  {
    if n > 0 {
      TallyFresh(batchId, n - 1, status);
      assert FreshRows(batchId, n)[..n - 1] == FreshRows(batchId, n - 1);
    }
  }

  lemma {:induction false} TallyAll(rows: seq<Row>)
    ensures Tally(rows, Pending) + Tally(rows, Completed) + Tally(rows, Failed) == |rows|
  {
    if rows != [] {
      TallyAll(rows[..|rows| - 1]);
    }
  }

  /** A job that ends settles its own row and no other, and the counters follow. */
  lemma SettleHits(p: Progress, row: nat, o: Outcome, cont: bool)
    requires row < |p.results| && p.results[row] == FreshRow(p.batchId, row)
    requires forall j :: 0 <= j < row ==> !Contains(p.results[j].jobId, Needle(row))
    requires Counted(p)
    ensures var (q, thrown) := Settle(p, row, o, cont);
      && q.batchId == p.batchId && Counted(q)
      && q.results == p.results[row := SettledRow(p.batchId, row, p.results[row], o)]
      && thrown == (o.Failure? && !cont)
      && q.status == (if thrown then Broken else p.status)
      && q.failedJobs == p.failedJobs + (if o.Failure? then 1 else 0)
  {
    RowNameContains(p.batchId, row);
    var settled := SettledRow(p.batchId, row, p.results[row], o);
    TallyUpdate(p.results, row, settled, Completed);
    TallyUpdate(p.results, row, settled, Failed);
  }

  lemma HarmlessMeans(s: State, p: nat, q: nat)
    requires s.cfg.width > 0 && p < s.next <= |s.cfg.order| <= |s.progress.results| && q < |s.cfg.order|
    requires s.cfg.order[p] < s.cfg.order[q] < |s.progress.results| && s.cfg.order[q] in s.inFlight && LatestChunk(s)
    requires Harmless(s.progress.results[s.cfg.order[p]].jobId, s.cfg, s.cfg.order[p])
    ensures !Contains(s.progress.results[s.cfg.order[p]].jobId, Needle(s.cfg.order[q]))
  {
    hide Group, Contains;
  }

  lemma NotStarted(order: seq<nat>, next: nat, p: nat)
    requires p < |order| && next <= |order|
    ensures p >= next ==> order[p] in order[next..]
  {
    if p >= next {
      assert order[next..][p - next] == order[p];
    }
  }

  /** No row before one that is in flight is taken for it. */
  lemma NoneTaken(s: State, row: nat)
    requires Inv(s) && row in s.inFlight
    ensures row < |s.progress.results| && s.progress.results[row] == FreshRow(s.progress.batchId, row)
    ensures forall j :: 0 <= j < row ==> !Contains(s.progress.results[j].jobId, Needle(row))
  {
    hide Group, Tally, Aligned, EarlierDone, Sound;
    assert row in s.cfg.order[..s.next];
    var q :| 0 <= q < |s.cfg.order| && s.cfg.order[q] == row;
    assert RowOk(s, row);
    forall j | 0 <= j < row ensures !Contains(s.progress.results[j].jobId, Needle(row)) {
      NotTaken(s, q, j);
    }
  }

  lemma NotTaken(s: State, q: nat, j: nat)
    requires Inv(s) && q < |s.cfg.order| && s.cfg.order[q] in s.inFlight && j < s.cfg.order[q]
    ensures !Contains(s.progress.results[j].jobId, Needle(s.cfg.order[q]))
  {
    hide Group, Tally, Aligned, Contains, RowName, Counted, LatestChunk, Harmless;
    var order, id, row := s.cfg.order, s.progress.batchId, s.cfg.order[q];
    Surjective(order, |order|, j);
    var p :| 0 <= p < |order| && order[p] == j;
    assert RowOk(s, j);
    if s.progress.results[j].status == Completed {
      NotStarted(order, s.next, p);
      HarmlessMeans(s, p, q);
    } else {
      NameContainsIff(id, j, row);
      NoEarlierPrefix(row, j);
    }
  }

  lemma RowEnds(s: State, row: nat, o: Outcome)
    requires Inv(s) && row in s.inFlight && HarmlessEvent(JobEnds(row, o), s.cfg)
    ensures Inv(Step(s, JobEnds(row, o)))
    ensures Step(s, JobEnds(row, o)).progress.results
         == s.progress.results[row := SettledRow(s.progress.batchId, row, s.progress.results[row], o)]
  {
    hide Tally, FindRow, Group, Sound, RowOk, EarlierDone, Settle, Aligned, Counted;
    RowEndsOk(s, row, o);
    NoneTaken(s, row);
    SettleHits(s.progress, row, o, s.cfg.continueOnError);
    if !s.cfg.continueOnError {
      RowEndsEarlier(s, row, o);
    }
  }

  lemma RowEndsOk(s: State, row: nat, o: Outcome)
    requires Inv(s) && row in s.inFlight && HarmlessEvent(JobEnds(row, o), s.cfg)
    ensures var t := Step(s, JobEnds(row, o));
      && |t.progress.results| == |s.cfg.order|
      && forall r :: 0 <= r < |s.cfg.order| ==> RowOk(t, r)
  {
    hide Tally, FindRow, Group, Sound, EarlierDone, Settle, Aligned;
    var t := Step(s, JobEnds(row, o));
    NoneTaken(s, row);
    SettleHits(s.progress, row, o, s.cfg.continueOnError);
    assert row in s.cfg.order[..s.next] && row !in s.cfg.order[s.next..];
    forall r | 0 <= r < |s.cfg.order| ensures RowOk(t, r) {
      assert RowOk(s, r);
    }
  }

  lemma RowEndsEarlier(s: State, row: nat, o: Outcome)
    requires Inv(s) && row in s.inFlight && !s.cfg.continueOnError
    ensures |Step(s, JobEnds(row, o)).progress.results| == |s.cfg.order|
    ensures EarlierDone(Step(s, JobEnds(row, o)))
  {
    hide Tally, FindRow, Group, Sound, RowOk, Settle, Aligned;
    NoneTaken(s, row);
    SettleHits(s.progress, row, o, s.cfg.continueOnError);
  }

  lemma {:induction false} GroupEarlier(p: nat, q: nat, i: nat, width: nat)
    requires width > 0 && Aligned(i, width) && q < i + width && Group(p, width) < Group(q, width)
    ensures p < i
  {
    if i > 0 && p >= width {
      GroupEarlier(p - width, q - width, i - width, width);
    }
  }

  lemma ChunkRows(s: State)
    requires Inv(s) && Enabled(s, NextChunk) && s.next < |s.cfg.order|
    ensures var t := Step(s, NextChunk);
      && s.next < t.next <= s.next + s.cfg.width && t.next <= |s.cfg.order|
      && (t.next == |s.cfg.order| || t.next == s.next + s.cfg.width)
      && t == s.(next := t.next, inFlight := t.inFlight)
      && (forall r :: r in t.inFlight <==> r in s.cfg.order[s.next..t.next])
  {
    var t, order := Step(s, NextChunk), s.cfg.order;
    assert Chunk(s.cfg, s.next) == order[s.next..t.next];
  }

  lemma ChunkRowsOk(s: State)
    requires Inv(s) && Enabled(s, NextChunk) && s.next < |s.cfg.order|
    ensures Step(s, NextChunk).next <= |s.cfg.order|
    ensures forall r :: 0 <= r < |s.cfg.order| ==> RowOk(Step(s, NextChunk), r)
  {
    hide Step, Members, EarlierDone, Sound, Tally;
    var t, order := Step(s, NextChunk), s.cfg.order;
    ChunkRows(s);
    assert order[s.next..] == order[s.next..t.next] + order[t.next..];
    forall r | 0 <= r < |order| ensures RowOk(t, r) {
      assert RowOk(s, r);
    }
  }

  lemma ChunkEarlier(s: State)
    requires Inv(s) && Enabled(s, NextChunk) && s.next < |s.cfg.order| && !s.cfg.continueOnError
    ensures Step(s, NextChunk).next <= |s.cfg.order| && EarlierDone(Step(s, NextChunk))
  {
    hide Step, Members, RowOk, Sound, Tally, Group, Aligned;
    var t, order, width := Step(s, NextChunk), s.cfg.order, s.cfg.width;
    ChunkRows(s);
    StartedDone(s);
    forall p, q | 0 <= p < |order| && 0 <= q < |order| && order[q] in t.inFlight && Group(p, width) < Group(q, width)
      ensures s.progress.results[order[p]].status == Completed
    {
      InChunk(s, t.next, q);
      GroupEarlier(p, q, s.next, width);
    }
    forall p | s.next <= p < t.next ensures order[p] in t.inFlight {
      assert order[s.next..t.next][p - s.next] == order[p];
    }
  }

  lemma ChunkLatest(s: State)
    requires Inv(s) && Enabled(s, NextChunk) && s.next < |s.cfg.order|
    ensures Step(s, NextChunk).next <= |s.cfg.order| && LatestChunk(Step(s, NextChunk))
  {
    hide Step, Members, Inv, LatestChunk;
    var t := Step(s, NextChunk);
    ChunkRows(s);
    OutOfChunk(s, t);
  }

  lemma OutOfChunk(s: State, t: State)
    requires Inv(s) && s.next < |s.cfg.order| && t.cfg == s.cfg && s.next < t.next <= |s.cfg.order|
    requires t.next <= s.next + s.cfg.width
    requires forall r :: r in t.inFlight <==> r in s.cfg.order[s.next..t.next]
    ensures LatestChunk(t)
  {
    hide RowOk, Sound, Tally, Group, Aligned, EarlierDone;
    var order, width := s.cfg.order, s.cfg.width;
    forall p, q | 0 <= p < t.next && 0 <= q < |order| && order[q] in t.inFlight
      ensures Group(p, width) <= Group(q, width)
    {
      InChunk(s, t.next, q);
      if Group(q, width) < Group(p, width) {
        GroupEarlier(q, p, s.next, width);
      }
    }
  }

  /** Between two chunks of a batch that stops on errors, every row started has completed. */
  lemma StartedDone(s: State)
    requires Inv(s) && Enabled(s, NextChunk) && !s.cfg.continueOnError
    ensures forall p :: 0 <= p < s.next ==> s.progress.results[s.cfg.order[p]].status == Completed
  {
  }

  lemma InChunk(s: State, next: nat, q: nat)
    requires Permutes(s.cfg.order, |s.cfg.order|) && s.next <= next <= |s.cfg.order| && q < |s.cfg.order|
    requires s.cfg.order[q] in s.cfg.order[s.next..next]
    ensures s.next <= q < next
  {
    var k :| 0 <= k < next - s.next && s.cfg.order[s.next..next][k] == s.cfg.order[q];
    assert s.cfg.order[s.next + k] == s.cfg.order[q];
  }

  lemma ChunkStarts(s: State)
    requires Inv(s) && Enabled(s, NextChunk)
    ensures Inv(Step(s, NextChunk))
  {
    hide Step, Members, RowOk, Sound, Tally, Group, EarlierDone, Permutes, LatestChunk;
    if s.next < |s.cfg.order| {
      ChunkRows(s);
      ChunkLatest(s);
      ChunkRowsOk(s);
      ChunkPrefix(s);
      if !s.cfg.continueOnError {
        ChunkEarlier(s);
      }
    } else {
      LastChunk(s);
    }
  }

  lemma ChunkPrefix(s: State)
    requires Inv(s) && Enabled(s, NextChunk) && s.next < |s.cfg.order|
    ensures Step(s, NextChunk).next <= |s.cfg.order|
    ensures forall r :: r in Step(s, NextChunk).inFlight ==> r in s.cfg.order[..Step(s, NextChunk).next]
  {
    hide Step, Members, RowOk, Sound, Tally, Group, EarlierDone, Permutes;
    ChunkRows(s);
  }

  lemma LastChunk(s: State)
    requires Inv(s) && Enabled(s, NextChunk) && s.next == |s.cfg.order|
    ensures Inv(Step(s, NextChunk))
  {
    hide Sound, Tally, Group;
    forall r | 0 <= r < |s.cfg.order| ensures RowOk(Step(s, NextChunk), r) {
      assert RowOk(s, r);
    }
  }

  lemma StatusOnly(s: State, e: Event)
    requires Inv(s) && Enabled(s, e) && (e.Catch? || e.Cancel?)
    ensures Inv(Step(s, e))
  {
    var t := Step(s, e);
    forall r | 0 <= r < |s.cfg.order| ensures RowOk(t, r) {
      assert RowOk(s, r);
    }
  }

  lemma StepKeeps(s: State, e: Event)
    requires Inv(s) && Enabled(s, e) && HarmlessEvent(e, s.cfg)
    ensures Inv(Step(s, e))
  {
    match e
    case JobEnds(row, o) => RowEnds(s, row, o);
    case NextChunk => ChunkStarts(s);
    case Catch => StatusOnly(s, e);
    case Cancel => StatusOnly(s, e);
  }

  ghost predicate GoodBatch(batchId: string, cfg: Config) {
    Permutes(cfg.order, |cfg.order|) && cfg.width > 0 && Sound(batchId, cfg)
  }

  lemma StartOk(batchId: string, cfg: Config)
    requires GoodBatch(batchId, cfg)
    ensures Inv(Start(batchId, cfg))
  {
    var s := Start(batchId, cfg);
    TallyFresh(batchId, |cfg.order|, Completed);
    TallyFresh(batchId, |cfg.order|, Failed);
    forall r | 0 <= r < |cfg.order| ensures RowOk(s, r) {
      Surjective(cfg.order, |cfg.order|, r);
      assert cfg.order[0..] == cfg.order;
    }
  }

  ghost predicate HarmlessRun(events: seq<Event>, cfg: Config)
    requires cfg.width > 0
  {
    forall k :: 0 <= k < |events| ==> HarmlessEvent(events[k], cfg)
  }

  /** Every state that any interleaving reaches satisfies the invariant: the counters equal the marked rows. */
  lemma {:induction false} Reachable(batchId: string, cfg: Config, events: seq<Event>)
    requires GoodBatch(batchId, cfg) && HarmlessRun(events, cfg)
    requires Run(Start(batchId, cfg), events).Some?
    ensures var s := Run(Start(batchId, cfg), events).value;
      Inv(s) && s.cfg == cfg && s.progress.batchId == batchId
  {
    if events == [] {
      StartOk(batchId, cfg);
    } else {
      var front := events[..|events| - 1];
      Reachable(batchId, cfg, front);
      hide Inv, Settle;
      StepKeeps(Run(Start(batchId, cfg), front).value, events[|events| - 1]);
      StepFixed(Run(Start(batchId, cfg), front).value, events[|events| - 1]);
    }
  }

  lemma StepFixed(s: State, e: Event)
    requires Enabled(s, e)
    ensures Step(s, e).cfg == s.cfg && Step(s, e).progress.batchId == s.progress.batchId
  {
  }

  /** How often a row's job ends in a run. */
  function Ends(events: seq<Event>, row: nat): nat {
    if events == [] then 0
    else
      var e := events[|events| - 1];
      Ends(events[..|events| - 1], row) + if e.JobEnds? && e.row == row then 1 else 0
  }

  /** In every run each row settles once or is still waiting, never both. */
  lemma {:induction false} SettlesOnce(batchId: string, cfg: Config, events: seq<Event>, row: nat)
    requires GoodBatch(batchId, cfg) && HarmlessRun(events, cfg) && row < |cfg.order|
    requires Run(Start(batchId, cfg), events).Some?
    ensures var s := Run(Start(batchId, cfg), events).value;
      && s.next <= |s.cfg.order|
      && Ends(events, row) == (if Waiting(s, row) then 0 else 1)
  {
    Reachable(batchId, cfg, events);
    if events == [] {
      Surjective(cfg.order, |cfg.order|, row);
      assert cfg.order[0..] == cfg.order;
    } else {
      var front := events[..|events| - 1];
      Reachable(batchId, cfg, front);
      SettlesOnce(batchId, cfg, front, row);
      WaitingStep(Run(Start(batchId, cfg), front).value, events[|events| - 1], row);
    }
  }

  lemma WaitingStep(s: State, e: Event, row: nat)
    requires Inv(s) && Enabled(s, e)
    ensures Step(s, e).next <= |s.cfg.order| && Step(s, e).cfg == s.cfg
    ensures Waiting(Step(s, e), row) <==> Waiting(s, row) && !(e.JobEnds? && e.row == row)
    ensures e.JobEnds? ==> Waiting(s, e.row)
  {
    hide Settle, Members, RowOk, Sound, Tally, EarlierDone, Aligned;
    if e.JobEnds? {
      assert e.row in s.cfg.order[..s.next] && e.row !in s.cfg.order[s.next..];
    } else if e.NextChunk? && s.next < |s.cfg.order| {
      ChunkWaits(s, row);
    }
  }

  lemma ChunkWaits(s: State, row: nat)
    requires Inv(s) && Enabled(s, NextChunk) && s.next < |s.cfg.order|
    ensures Step(s, NextChunk).next <= |s.cfg.order| && Step(s, NextChunk).cfg == s.cfg
    ensures Waiting(Step(s, NextChunk), row) <==> Waiting(s, row)
  {
    hide Step, Members, RowOk, Sound, Tally, EarlierDone, Aligned, Permutes;
    var t, order := Step(s, NextChunk), s.cfg.order;
    ChunkRows(s);
    assert order[s.next..] == order[s.next..t.next] + order[t.next..];
  }

  /** The outcome a job ended with is the one its own row records, in every run and at every later moment. */
  lemma {:induction false} RowRecords(batchId: string, cfg: Config, events: seq<Event>, k: nat)
    requires GoodBatch(batchId, cfg) && HarmlessRun(events, cfg)
    requires Run(Start(batchId, cfg), events).Some?
    requires k < |events| && events[k].JobEnds?
    ensures var row := events[k].row; var p := Run(Start(batchId, cfg), events).value.progress;
      && row < |p.results|
      && p.results[row] == SettledRow(batchId, row, FreshRow(batchId, row), events[k].outcome)
  {
    hide Inv, Settle, SettledRow, Step;
    var front, e := events[..|events| - 1], events[|events| - 1];
    var s := Run(Start(batchId, cfg), front).value;
    Reachable(batchId, cfg, front);
    StepRecords(s, e, events[k].row);
    if k < |front| {
      assert front[k] == events[k];
      RowRecords(batchId, cfg, front, k);
      EndsCounts(front, k);
      RowsKept(s);
      SettlesOnce(batchId, cfg, front, events[k].row);
    }
  }

  lemma RowsKept(s: State)
    requires Inv(s)
    ensures |s.progress.results| == |s.cfg.order|
  {
  }

  /** A step records the outcome of the row that ends, and leaves every other row as it is. */
  lemma StepRecords(s: State, e: Event, row: nat)
    requires Inv(s) && Enabled(s, e) && HarmlessEvent(e, s.cfg)
    ensures var p, q := s.progress, Step(s, e).progress;
      && |q.results| == |p.results|
      && (e.JobEnds? && e.row == row ==>
            row < |q.results| && q.results[row] == SettledRow(p.batchId, row, FreshRow(p.batchId, row), e.outcome))
      && (row < |q.results| && !(e.JobEnds? && e.row == row) ==> q.results[row] == p.results[row])
  {
    hide Inv, Settle, SettledRow, HarmlessEvent;
    if e.JobEnds? {
      NoneTaken(s, e.row);
      RowEnds(s, e.row, e.outcome);
    }
  }

  lemma {:induction false} EndsCounts(events: seq<Event>, k: nat)
    requires k < |events| && events[k].JobEnds?
    ensures Ends(events, events[k].row) > 0
  {
    if k < |events| - 1 {
      assert events[..|events| - 1][k] == events[k];
      EndsCounts(events[..|events| - 1], k);
    }
  }

  /** When a batch returns normally every row has settled; one that continues on errors never rejects. */
  lemma ReturnedSettled(batchId: string, cfg: Config, events: seq<Event>)
    requires GoodBatch(batchId, cfg) && HarmlessRun(events, cfg)
    requires Run(Start(batchId, cfg), events).Some?
    ensures var s := Run(Start(batchId, cfg), events).value;
      && (cfg.continueOnError ==> s.phase == Working || s.phase == Returned)
      && |s.progress.results| == |cfg.order|
      && (s.phase == Returned ==>
            && (forall r :: 0 <= r < |cfg.order| ==> s.progress.results[r].status != Pending)
            && s.progress.completedJobs + s.progress.failedJobs == |cfg.order|)
  {
    Reachable(batchId, cfg, events);
    var s := Run(Start(batchId, cfg), events).value;
    if s.phase == Returned {
      forall r | 0 <= r < |cfg.order| ensures s.progress.results[r].status != Pending {
        assert RowOk(s, r);
      }
      NonePending(s.progress.results);
      TallyAll(s.progress.results);
    }
  }

  lemma {:induction false} NonePending(rows: seq<Row>)
    requires forall r :: 0 <= r < |rows| ==> rows[r].status != Pending
    ensures Tally(rows, Pending) == 0
  {
    if rows != [] {
      NonePending(rows[..|rows| - 1]);
    }
  }

  /** Run one at a time, a batch that stops on errors has no failure until it stops, and then exactly one. */
  ghost predicate StopsAtFirst(s: State) {
    && (s.phase == Working || s.phase == Returned ==> s.progress.failedJobs == 0 && |s.inFlight| <= 1)
    && (s.phase == Rejecting || s.phase == Rejected ==> s.progress.failedJobs == 1 && s.inFlight == {})
  }

  lemma StopsStep(s: State, e: Event)
    requires Inv(s) && Enabled(s, e) && HarmlessEvent(e, s.cfg)
    requires s.cfg.width == 1 && !s.cfg.continueOnError && StopsAtFirst(s)
    ensures StopsAtFirst(Step(s, e))
  {
    match e
    case JobEnds(row, o) =>
      NoneTaken(s, row);
      SettleHits(s.progress, row, o, false);
      hide Settle;
      assert s.inFlight - {row} == {} by {
        SubsetSize({row}, s.inFlight);
        if x :| x in s.inFlight - {row} {
          SubsetSize({row, x}, s.inFlight);
        }
      }
    case NextChunk =>
      if s.next < |s.cfg.order| {
        assert Chunk(s.cfg, s.next) == [s.cfg.order[s.next]];
        assert Members(Chunk(s.cfg, s.next)) == {s.cfg.order[s.next]};
      }
    case Catch =>
    case Cancel =>
  }

  lemma {:induction false} SequentialStops(batchId: string, cfg: Config, events: seq<Event>)
    requires GoodBatch(batchId, cfg) && HarmlessRun(events, cfg)
    requires cfg.width == 1 && !cfg.continueOnError
    requires Run(Start(batchId, cfg), events).Some?
    ensures StopsAtFirst(Run(Start(batchId, cfg), events).value)
  {
    if events != [] {
      var front := events[..|events| - 1];
      SequentialStops(batchId, cfg, front);
      Reachable(batchId, cfg, front);
      hide Inv, StopsAtFirst, Settle;
      StopsStep(Run(Start(batchId, cfg), front).value, events[|events| - 1]);
    }
  }

  // ---------------------------------------------------------------- cancellation

  /** A cancellation survives exactly the events that do not return, reject or fail the batch. */
  lemma CancelSurvivesIff(s: State, e: Event)
    requires Inv(s) && Enabled(s, e) && HarmlessEvent(e, s.cfg) && s.progress.status == Cancelled
    ensures Step(s, e).progress.status == Cancelled <==>
      match e
      case JobEnds(_, o) => o.Success? || s.cfg.continueOnError
      case NextChunk => s.next < |s.cfg.order|
      case Catch => false
      case Cancel => true
  {
    if e.JobEnds? {
      var row := e.row;
      NoneTaken(s, row);
      SettleHits(s.progress, row, e.outcome, s.cfg.continueOnError);
    }
  }

  /**
    A cancellation came after everything that overwrites the status: a caught rejection, a failure that
    stops the batch and, if the batch has returned, the last look for a next chunk.
  */
  predicate StillCancelled(events: seq<Event>, continueOnError: bool, returned: bool) {
    if events == [] then false
    else
      var front := events[..|events| - 1];
      match events[|events| - 1]
      case Cancel => true
      case Catch => false
      case NextChunk => !returned && StillCancelled(front, continueOnError, returned)
      case JobEnds(_, o) => (o.Success? || continueOnError) && StillCancelled(front, continueOnError, returned)
  }

  /** At the end of any run a batch reads cancelled exactly when it was cancelled after all of that. */
  lemma {:induction false} CancelledIff(batchId: string, cfg: Config, events: seq<Event>)
    requires GoodBatch(batchId, cfg) && HarmlessRun(events, cfg)
    requires Run(Start(batchId, cfg), events).Some?
    ensures var s := Run(Start(batchId, cfg), events).value;
      s.progress.status == Cancelled <==> StillCancelled(events, cfg.continueOnError, s.phase == Returned)
  {
    hide Inv, GoodBatch;
    if events != [] {
      var front, e := events[..|events| - 1], events[|events| - 1];
      CancelledIff(batchId, cfg, front);
      Reachable(batchId, cfg, front);
      StatusStep(Run(Start(batchId, cfg), front).value, e);
    }
  }

  lemma StatusStep(s: State, e: Event)
    requires Inv(s) && Enabled(s, e) && HarmlessEvent(e, s.cfg)
    ensures e.Cancel? ==> Step(s, e).progress.status == Cancelled && Step(s, e).phase == s.phase
    ensures e.Catch? ==> Step(s, e).progress.status == Broken && Step(s, e).phase == Rejected
    ensures e.NextChunk? ==> s.phase == Working && (Step(s, e).phase == Working || Step(s, e).phase == Returned)
    ensures e.NextChunk? ==>
      Step(s, e).progress.status == (if Step(s, e).phase == Returned then Done else s.progress.status)
    ensures e.JobEnds? ==> s.phase != Returned && Step(s, e).phase != Returned
    ensures e.JobEnds? ==>
      Step(s, e).progress.status == (if e.outcome.Failure? && !s.cfg.continueOnError then Broken else s.progress.status)
  {
    if e.JobEnds? {
      NoneTaken(s, e.row);
      SettleHits(s.progress, e.row, e.outcome, s.cfg.continueOnError);
    }
  }

  // ---------------------------------------------------------------- the service

  lemma RunExtends(s: State, events: seq<Event>, e: Event)
    requires Run(s, events).Some? && Enabled(Run(s, events).value, e)
    ensures Run(s, events + [e]) == Some(Step(Run(s, events).value, e))
  {
    assert (events + [e])[..|events + [e]| - 1] == events;
  }

  /** From position i on, the schedule lets the rows of each chunk end in some order before the next starts. */
  ghost predicate ChunksFrom(schedule: seq<nat>, cfg: Config, i: nat)
    requires |schedule| == |cfg.order| && cfg.width > 0
    decreases |schedule| - i
  {
    i >= |schedule| || (
      && Members(Chunk(cfg.(order := schedule), i)) == Members(Chunk(cfg, i))
      && ChunksFrom(schedule, cfg, i + cfg.width))
  }

  /** A way in which a chunk-parallel run may unfold. */
  ghost predicate ByChunks(schedule: seq<nat>, cfg: Config) {
    && cfg.width > 0 && |schedule| == |cfg.order|
    && Permutes(schedule, |schedule|) && ChunksFrom(schedule, cfg, 0)
  }

  lemma RunStarts(start: State)
    ensures Run(start, []) == Some(start)
  {
  }

  lemma ChunkBegins(start: State, events: seq<Event>, schedule: seq<nat>, p: Progress, cfg: Config, i: nat)
    requires cfg.width > 0 && |schedule| == |cfg.order| && i < |schedule| && ChunksFrom(schedule, cfg, i)
    requires Run(start, events) == Some(State(cfg, p, i, {}, Working))
    ensures var rows := Chunk(cfg.(order := schedule), i);
      && 0 < |rows| <= |schedule| - i
      && Run(start, events + [NextChunk]) == Some(State(cfg, p, i + |rows|, Members(rows), Working))
      && (i + |rows| < |schedule| ==> ChunksFrom(schedule, cfg, i + |rows|))
  {
    hide Members, Run;
    RunExtends(start, events, NextChunk);
  }

  lemma BatchReturns(start: State, events: seq<Event>, p: Progress, cfg: Config)
    requires Run(start, events) == Some(State(cfg, p, |cfg.order|, {}, Working))
    ensures Run(start, events + [NextChunk]) ==
      Some(State(cfg, p.(status := Done), |cfg.order|, {}, Returned))
  {
    RunExtends(start, events, NextChunk);
  }

  lemma BatchCaught(start: State, events: seq<Event>, s: State)
    requires Run(start, events) == Some(s) && s.phase == Rejecting
    ensures Run(start, events + [Catch]) == Some(s.(progress := s.progress.(status := Broken), phase := Rejected))
  {
    RunExtends(start, events, Catch);
  }

  lemma DistinctChunk(schedule: seq<nat>, n: nat, width: nat, i: nat)
    requires Permutes(schedule, n) && i <= n
    ensures var rows := Chunk(Config(schedule, width, false), i);
      && (forall k :: 0 <= k < |rows| ==> rows[k] < n)
      && (forall j, k :: 0 <= j < k < |rows| ==> rows[j] != rows[k])
  {
  }

  lemma DropFirst(rows: seq<nat>, k: nat)
    requires k < |rows| && forall i, j :: 0 <= i < j < |rows| ==> rows[i] != rows[j]
    ensures rows[k] in Members(rows[k..]) && Members(rows[k..]) - {rows[k]} == Members(rows[k + 1..])
  {
    assert rows[k..] == [rows[k]] + rows[k + 1..];
    assert rows[k] !in rows[k + 1..];
  }

  lemma NoMembers(rows: seq<nat>)
    ensures Members(rows[|rows|..]) == {}
  {
    assert rows[|rows|..] == [];
  }

  /** The jobs that ended, in the order in which they did. */
  function JobEvents(events: seq<Event>): seq<Event> {
    if events == [] then []
    else
      var e := events[|events| - 1];
      JobEvents(events[..|events| - 1]) + if e.JobEnds? then [e] else []
  }

  /** The k-th job to end is that of row order[k], with the k-th outcome. */
  function Script(order: seq<nat>, outcomes: seq<Outcome>): (script: seq<Event>)
    requires |order| == |outcomes|
    ensures |script| == |order| && forall k :: 0 <= k < |order| ==> script[k] == JobEnds(order[k], outcomes[k])
  {
    if order == [] then []
    else Script(order[..|order| - 1], outcomes[..|order| - 1]) + [JobEnds(order[|order| - 1], outcomes[|order| - 1])]
  }

  /** The events of an undisturbed run of the script so far: no cancellation, and its jobs end as scripted. */
  ghost predicate Follows(events: seq<Event>, script: seq<Event>) {
    && (forall e :: e in events ==> e.JobEnds? || e.NextChunk?)
    && JobEvents(events) <= script
  }

  lemma NextJob(events: seq<Event>, script: seq<Event>, k: nat)
    requires Follows(events, script) && |JobEvents(events)| == k < |script| && script[k].JobEnds?
    ensures Follows(events + [script[k]], script) && |JobEvents(events + [script[k]])| == k + 1
  {
    var more := events + [script[k]];
    assert more[..|more| - 1] == events;
  }

  lemma NextRows(events: seq<Event>, script: seq<Event>)
    requires Follows(events, script)
    ensures Follows(events + [NextChunk], script) && JobEvents(events + [NextChunk]) == JobEvents(events)
  {
    var more := events + [NextChunk];
    assert more[..|more| - 1] == events;
  }

  datatype Strategy = Sequential | Parallel | PriorityBased | Unknown

  datatype Answer = BadRequest | Resolves | Rejects

  /** `config.maxConcurrency || 5` */
  function Width(maxConcurrency: nat): nat { if maxConcurrency == 0 then 5 else maxConcurrency }

  function BatchConfig(strategy: Strategy, jobs: seq<Job>, maxConcurrency: nat, continueOnError: bool): Config {
    match strategy
    case Sequential => Config(Identity(|jobs|), 1, continueOnError)
    case PriorityBased => Config(PriorityOrder(jobs), 1, continueOnError)
    case _ => Config(Identity(|jobs|), Width(maxConcurrency), continueOnError)
  }

  /** The order in which the jobs of a batch end; for jobs that run together, any schedule chunk by chunk. */
  ghost function Plan(strategy: Strategy, jobs: seq<Job>, maxConcurrency: nat, continueOnError: bool, schedule: seq<nat>)
    : Option<seq<nat>>
  {
    match strategy
    case Sequential => Some(Identity(|jobs|))
    case PriorityBased => Some(PriorityOrder(jobs))
    case _ =>
      if ByChunks(schedule, BatchConfig(strategy, jobs, maxConcurrency, continueOnError)) then Some(schedule) else None
  }

  lemma NoEvents(script: seq<Event>)
    ensures Follows([], script) && JobEvents([]) == []
  {
  }

  /** The priority order names rows of the batch, one for each job. */
  lemma PriorityRows(jobs: seq<Job>)
    ensures |PriorityOrder(jobs)| == |jobs|
    ensures forall k :: 0 <= k < |jobs| ==> PriorityOrder(jobs)[k] < |jobs|
  {
    SortJobsKeeps(jobs);
    forall k | 0 <= k < |jobs| ensures IndexOf(jobs, SortJobs(jobs)[k]) < |jobs| {
      assert SortJobs(jobs)[k] in multiset(jobs);
      var i :| 0 <= i < |jobs| && jobs[i] == SortJobs(jobs)[k];
    }
  }

  class QueueService {
    var progress: Progress

    constructor (batchId: string, n: nat)
      ensures progress == Fresh(batchId, n)
    {
      progress := Fresh(batchId, n);
    }

    method FindIndex(needle: string) returns (jobIndex: int)
      ensures jobIndex == if FindRow(progress.results, needle) < |progress.results|
                          then FindRow(progress.results, needle) else -1
    {
      for k := 0 to |progress.results|
        invariant forall j :: 0 <= j < k ==> !Contains(progress.results[j].jobId, needle)
      {
        if Contains(progress.results[k].jobId, needle) {
          return k;
        }
      }
      return -1;
    }

    /** What happens once job i has finished or failed. */
    method JobEnded(i: nat, outcome: Outcome, continueOnError: bool) returns (thrown: bool)
      modifies this
      ensures (progress, thrown) == Settle(old(progress), i, outcome, continueOnError)
    {
      var jobIndex := FindIndex(Needle(i));
      thrown := false;
      if jobIndex == -1 {
        return;
      }
      var row := SettledRow(progress.batchId, i, progress.results[jobIndex], outcome);
      progress := progress.(results := progress.results[jobIndex := row]);
      match outcome {
        case Success(_, _) =>
          progress := progress.(completedJobs := progress.completedJobs + 1);
        case Failure(_) =>
          progress := progress.(failedJobs := progress.failedJobs + 1);
          if !continueOnError {
            progress := progress.(status := Broken);
            thrown := true;
          }
      }
    }

    /** Runs the rows one at a time in the given order; the events it performs are a run of the machine. */
    method ProcessOneByOne(order: seq<nat>, outcomes: seq<Outcome>, continueOnError: bool)
      returns (thrown: bool, ghost events: seq<Event>)
      requires |outcomes| == |order| && progress == Fresh(progress.batchId, |order|)
      requires forall k :: 0 <= k < |order| ==> order[k] < |order|
      modifies this
      ensures var run := Run(Start(old(progress.batchId), Config(order, 1, continueOnError)), events);
        run.Some? && run.value.progress == progress && run.value.phase == (if thrown then Rejecting else Returned)
      ensures Follows(events, Script(order, outcomes))
    {
      hide Follows, Settle, JobEvents;
      ghost var cfg := Config(order, 1, continueOnError);
      ghost var start := Start(progress.batchId, cfg);
      ghost var script := Script(order, outcomes);
      events := [];
      NoEvents(script);
      for i := 0 to |order|
        invariant Run(start, events) == Some(State(cfg, progress, i, {}, Working))
        invariant Follows(events, script) && |JobEvents(events)| == i
      {
        RunExtends(start, events, NextChunk);
        NextRows(events, script);
        assert Chunk(cfg, i) == [order[i]] && Members([order[i]]) == {order[i]};
        events := events + [NextChunk];
        RunExtends(start, events, script[i]);
        NextJob(events, script, i);
        events := events + [script[i]];
        thrown := JobEnded(order[i], outcomes[i], continueOnError);
        if thrown {
          return;
        }
      }
      RunExtends(start, events, NextChunk);
      NextRows(events, script);
      events := events + [NextChunk];
      progress := progress.(status := Done);
      thrown := false;
    }

    method ProcessSequentially(outcomes: seq<Outcome>, continueOnError: bool)
      returns (thrown: bool, ghost events: seq<Event>)
      requires progress == Fresh(progress.batchId, |outcomes|)
      modifies this
      ensures var run := Run(Start(old(progress.batchId), Config(Identity(|outcomes|), 1, continueOnError)), events);
        run.Some? && run.value.progress == progress && run.value.phase == (if thrown then Rejecting else Returned)
      ensures Follows(events, Script(Identity(|outcomes|), outcomes))
    {
      thrown, events := ProcessOneByOne(Identity(|outcomes|), outcomes, continueOnError);
    }

    method ProcessByPriority(jobs: seq<Job>, outcomes: seq<Outcome>, continueOnError: bool)
      returns (thrown: bool, ghost events: seq<Event>)
      requires |jobs| == |outcomes|
      requires progress == Fresh(progress.batchId, |outcomes|)
      modifies this
      ensures |PriorityOrder(jobs)| == |jobs|
      ensures var run := Run(Start(old(progress.batchId), Config(PriorityOrder(jobs), 1, continueOnError)), events);
        run.Some? && run.value.progress == progress && run.value.phase == (if thrown then Rejecting else Returned)
      ensures Follows(events, Script(PriorityOrder(jobs), outcomes))
    {
      PriorityRows(jobs);
      thrown, events := ProcessOneByOne(PriorityOrder(jobs), outcomes, continueOnError);
    }

    /** One chunk: its rows end as scheduled, all of them, even when one failure has already been thrown. */
    method DrainChunk(from: nat, rows: seq<nat>, outcomes: seq<Outcome>, continueOnError: bool,
                      ghost start: State, ghost before: seq<Event>, ghost s: State, ghost script: seq<Event>)
      returns (thrown: bool, ghost events: seq<Event>)
      requires s.cfg.continueOnError == continueOnError
      requires from + |rows| <= |outcomes| == |script|
      requires forall k :: 0 <= k < |rows| ==> script[from + k] == JobEnds(rows[k], outcomes[from + k])
      requires forall j, k :: 0 <= j < k < |rows| ==> rows[j] != rows[k]
      requires Run(start, before) == Some(s) && s.progress == progress && s.phase == Working
      requires s.inFlight == Members(rows)
      requires Follows(before, script) && |JobEvents(before)| == from
      modifies this
      ensures Run(start, events) ==
        Some(s.(progress := progress, inFlight := {}, phase := if thrown then Rejecting else Working))
      ensures Follows(events, script) && |JobEvents(events)| == from + |rows|
    {
      hide Run, Settle, Members, Follows, JobEvents;
      events := before;
      thrown := false;
      assert rows[0..] == rows;
      for k := 0 to |rows|
        invariant Run(start, events) == Some(
          s.(progress := progress, inFlight := Members(rows[k..]), phase := if thrown then Rejecting else Working))
        invariant Follows(events, script) && |JobEvents(events)| == from + k
      {
        DropFirst(rows, k);
        RunExtends(start, events, script[from + k]);
        NextJob(events, script, from + k);
        events := events + [script[from + k]];
        var failed := JobEnded(rows[k], outcomes[from + k], continueOnError);
        thrown := thrown || failed;
      }
      NoMembers(rows);
    }

    /** Chunks of rows run together; the schedule is the order in which they happen to end. */
    method ProcessInParallel(outcomes: seq<Outcome>, schedule: seq<nat>, concurrency: nat, continueOnError: bool)
      returns (thrown: bool, ghost events: seq<Event>)
      requires concurrency > 0 && ByChunks(schedule, Config(Identity(|outcomes|), concurrency, continueOnError))
      requires progress == Fresh(progress.batchId, |outcomes|)
      modifies this
      ensures var cfg := Config(Identity(|outcomes|), concurrency, continueOnError);
        var run := Run(Start(old(progress.batchId), cfg), events);
        run.Some? && run.value.progress == progress && run.value.phase == (if thrown then Rejecting else Returned)
      ensures Follows(events, Script(schedule, outcomes))
    {
      hide Run, Step, Members, Identity, Fresh, Settle, ChunksFrom, Follows, JobEvents;
      ghost var cfg := Config(Identity(|outcomes|), concurrency, continueOnError);
      ghost var start := Start(progress.batchId, cfg);
      ghost var script := Script(schedule, outcomes);
      RunStarts(start);
      NoEvents(script);
      events := [];
      var i := 0;
      while i < |outcomes|
        invariant i <= |outcomes| && (i < |outcomes| ==> ChunksFrom(schedule, cfg, i))
        invariant Run(start, events) == Some(State(cfg, progress, i, {}, Working))
        invariant Follows(events, script) && |JobEvents(events)| == i
        decreases |outcomes| - i
      {
        var rows := Chunk(Config(schedule, concurrency, continueOnError), i);
        ghost var s := State(cfg, progress, i + |rows|, Members(rows), Working);
        ChunkBegins(start, events, schedule, progress, cfg, i);
        NextRows(events, script);
        events := events + [NextChunk];
        DistinctChunk(schedule, |outcomes|, concurrency, i);
        thrown, events := DrainChunk(i, rows, outcomes, continueOnError, start, events, s, script);
        if thrown {
          return;
        }
        i := i + |rows|;
      }
      BatchReturns(start, events, progress, cfg);
      NextRows(events, script);
      events := events + [NextChunk];
      progress := progress.(status := Done);
      thrown := false;
    }

    /**
      A whole submission. The plan is the order in which the jobs end, which the strategy fixes unless
      jobs run together; an unknown strategy runs them together. A rejection is caught and marked.
    */
    method AddBatchJob(batchId: string, jobs: seq<Job>, strategy: Strategy, maxConcurrency: nat,
                       continueOnError: bool, schedule: seq<nat>, outcomes: seq<Outcome>)
      returns (answer: Answer, ghost events: seq<Event>)
      requires |outcomes| == |jobs|
      requires Plan(strategy, jobs, maxConcurrency, continueOnError, schedule).Some?
      modifies this
      ensures answer == BadRequest <==> jobs == []
      ensures jobs == [] ==> progress == old(progress)
      ensures jobs != [] ==>
        var cfg := BatchConfig(strategy, jobs, maxConcurrency, continueOnError);
        var run := Run(Start(batchId, cfg), events);
        && run.Some? && run.value.progress == progress
        && run.value.phase == (if answer == Resolves then Returned else Rejected)
        && |Plan(strategy, jobs, maxConcurrency, continueOnError, schedule).value| == |outcomes|
        && Follows(if answer == Resolves then events else events[..|events| - 1],
                   Script(Plan(strategy, jobs, maxConcurrency, continueOnError, schedule).value, outcomes))
    {
      hide Run, Step, Follows, JobEvents, Script, ChunksFrom, Permutes, PriorityOrder, Identity;
      events := [];
      if jobs == [] {
        return BadRequest, events;
      }
      PriorityRows(jobs);
      progress := Fresh(batchId, |jobs|);
      var thrown: bool;
      match strategy {
        case Sequential => thrown, events := ProcessSequentially(outcomes, continueOnError);
        case PriorityBased => thrown, events := ProcessByPriority(jobs, outcomes, continueOnError);
        case _ => thrown, events := ProcessInParallel(outcomes, schedule, Width(maxConcurrency), continueOnError);
      }
      answer := Resolves;
      if thrown {
        ghost var start := Start(batchId, BatchConfig(strategy, jobs, maxConcurrency, continueOnError));
        BatchCaught(start, events, Run(start, events).value);
        events := events + [Catch];
        assert events[..|events| - 1] + [Catch] == events;
        progress := progress.(status := Broken);
        answer := Rejects;
      }
    }
  }
}
