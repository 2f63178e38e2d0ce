/**
  Batches and jobs together: the batch orchestrator awaits the queue's promise for each job, and the
  handler answers a failure for good with an ordinary result, so the promise resolves.
*/
module BatchJobs {
  import opened Wrappers
  import Q = BatchQueue
  import J = JobLifecycle

  /** Adding a job fails, or the queue runs it under an id; attempt n of the script is what its work comes to on run n. */
  datatype Submission = Refused(error: Q.Payload) | Accepted(queueId: string, jobType: string, script: nat -> J.Attempt)

  /** How results and errors look in a batch's rows. */
  datatype Coding = Coding(result: J.Result -> Q.Payload, error: J.Error -> Q.Payload)

  /** A batch asks for no number of attempts, so each job gets its policy's. */
  function Budget(parsed: map<string, J.RawPolicy>, jobType: string): (n: nat)
    ensures n > 0
  {
    J.PolicyAttempts(parsed, jobType);
    J.Attempts(J.LoadPolicies(parsed), jobType, None)
  }

  function EndingOf(sub: Submission, parsed: map<string, J.RawPolicy>): J.Ending
    requires sub.Accepted?
  {
    J.Life(sub.script, Budget(parsed, sub.jobType), J.GetPolicy(J.LoadPolicies(parsed), sub.jobType).maxAttempts)
  }

  /** How the job ends for its batch. */
  function OutcomeOf(sub: Submission, parsed: map<string, J.RawPolicy>, code: Coding): Q.Outcome {
    match sub
    case Refused(error) => Q.Failure(error)
    case Accepted(queueId, _, _) =>
      match EndingOf(sub, parsed)
      case Completed(result, _) => Q.Success(queueId, code.result(result))
      case Lost(error, _) => Q.Failure(code.error(error))
  }

  /** The jobs of the run end as their submissions do. */
  ghost predicate Plays(events: seq<Q.Event>, subs: seq<Submission>, parsed: map<string, J.RawPolicy>, code: Coding) {
    forall k :: 0 <= k < |events| && events[k].JobEnds? ==>
      events[k].row < |subs| && events[k].outcome == OutcomeOf(subs[events[k].row], parsed, code)
  }

  /** For its batch a job fails exactly when it could not be added: an accepted one always completes. */
  lemma OutcomeFailsIff(sub: Submission, parsed: map<string, J.RawPolicy>, code: Coding)
    ensures OutcomeOf(sub, parsed, code).Failure? <==> sub.Refused?
    ensures sub.Accepted? ==>
      && EndingOf(sub, parsed).Completed?
      && OutcomeOf(sub, parsed, code) == Q.Success(sub.queueId, code.result(EndingOf(sub, parsed).result))
  {
    if sub.Accepted? {
      J.SubmittedNeverLost(parsed, sub.jobType, sub.script);
    }
  }

  /**
    In every run, a row whose job has ended is marked failed exactly when the job could not be added. A job
    whose handler gave up and filed a dead letter is marked completed, with the failure as its result.
  */
  lemma RowFailedIff(batchId: string, cfg: Q.Config, events: seq<Q.Event>, k: nat,
                     subs: seq<Submission>, parsed: map<string, J.RawPolicy>, code: Coding)
    requires Q.GoodBatch(batchId, cfg) && Q.HarmlessRun(events, cfg)
    requires Q.Run(Q.Start(batchId, cfg), events).Some? && Plays(events, subs, parsed, code)
    requires k < |events| && events[k].JobEnds?
    ensures var row := events[k].row; var rows := Q.Run(Q.Start(batchId, cfg), events).value.progress.results;
      && row < |subs| && row < |rows|
      && (rows[row].status == Q.Failed <==> subs[row].Refused?)
      && (subs[row].Accepted? ==>
            && EndingOf(subs[row], parsed).Completed?
            && rows[row].status == Q.Completed && rows[row].result == Some(code.result(EndingOf(subs[row], parsed).result))
            && |J.DeadLetters(EndingOf(subs[row], parsed), true)|
               == if EndingOf(subs[row], parsed).result.GaveUp? then 1 else 0)
  {
    Q.RowRecords(batchId, cfg, events, k);
    OutcomeFailsIff(subs[events[k].row], parsed, code);
  }

  /** A batch whose jobs can all be added counts no failure and never stops early, whatever its jobs come to. */
  lemma {:induction false} AcceptedNeverStops(batchId: string, cfg: Q.Config, events: seq<Q.Event>,
                                              subs: seq<Submission>, parsed: map<string, J.RawPolicy>, code: Coding)
    requires Q.GoodBatch(batchId, cfg) && Q.HarmlessRun(events, cfg)
    requires Q.Run(Q.Start(batchId, cfg), events).Some? && Plays(events, subs, parsed, code)
    requires forall s :: s in subs ==> s.Accepted?
    ensures var s := Q.Run(Q.Start(batchId, cfg), events).value;
      s.progress.failedJobs == 0 && (s.phase == Q.Working || s.phase == Q.Returned)
  {
    hide Q.Inv, Q.Settle, Q.GoodBatch, Q.FindRow;
    if events != [] {
      var front, e := events[..|events| - 1], events[|events| - 1];
      AcceptedNeverStops(batchId, cfg, front, subs, parsed, code);
      Q.Reachable(batchId, cfg, front);
      var s := Q.Run(Q.Start(batchId, cfg), front).value;
      if e.JobEnds? {
        assert subs[e.row] in subs;
        OutcomeFailsIff(subs[e.row], parsed, code);
        Q.NoneTaken(s, e.row);
        Tallied(s);
        Q.SettleHits(s.progress, e.row, e.outcome, cfg.continueOnError);
      }
    }
  }

  lemma Tallied(s: Q.State)
    requires Q.Inv(s)
    ensures Q.Counted(s.progress)
  {
  }
}
