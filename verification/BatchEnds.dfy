/**
  Progress of the batches of src/compute-job-queue/queue.service.ts: where a run can stop, and how soon. Nothing
  here depends on the row search, so it holds of every order of the rows, every batch id and all queue ids.
*/
module BatchEnds {
  import opened Wrappers
  import opened BatchQueue

  /** Nothing can happen any more, cancellations aside. */
  ghost predicate Stuck(s: State) { forall e :: Enabled(s, e) ==> e == Cancel }

  /** Back at the caller, with no job left to end. */
  predicate Ended(s: State) { (s.phase == Returned || s.phase == Rejected) && s.inFlight == {} }

  /** The events of a run, cancellations aside. */
  function Moves(events: seq<Event>): nat {
    if events == [] then 0 else Moves(events[..|events| - 1]) + if events[|events| - 1] == Cancel then 0 else 1
  }

  function Rank(phase: Phase): nat {
    match phase
    case Working => 2
    case Rejecting => 1
    case _ => 0
  }

  /** What is still to happen, at most. */
  function Remaining(s: State): int { |s.inFlight| + 2 * (|s.cfg.order| - s.next) + Rank(s.phase) }

  lemma {:induction false} MembersBound(rows: seq<nat>)
    ensures |Members(rows)| <= |rows|
  {
    if rows != [] {
      MembersBound(rows[..|rows| - 1]);
    }
  }

  lemma StepShrinks(s: State, e: Event)
    requires s.cfg.width > 0 && s.next <= |s.cfg.order| && Enabled(s, e)
    ensures var t := Step(s, e);
      && t.cfg == s.cfg && t.next <= |t.cfg.order|
      && (if e == Cancel then Remaining(t) == Remaining(s) else Remaining(t) < Remaining(s))
  {
    hide Settle, Members;
    if e.NextChunk? && s.next < |s.cfg.order| {
      MembersBound(Chunk(s.cfg, s.next));
    }
  }

  /** A run makes no more than two moves for each row, and two more. */
  lemma {:induction false} RunBounded(batchId: string, cfg: Config, events: seq<Event>)
    requires cfg.width > 0 && Run(Start(batchId, cfg), events).Some?
    ensures var s := Run(Start(batchId, cfg), events).value;
      s.cfg == cfg && s.next <= |cfg.order| && Moves(events) + Remaining(s) <= 2 * |cfg.order| + 2
  {
    hide Step, Enabled, Remaining;
    if events == [] {
      StartRemains(batchId, cfg);
    } else {
      var front, e := events[..|events| - 1], events[|events| - 1];
      RunBounded(batchId, cfg, front);
      StepShrinks(Run(Start(batchId, cfg), front).value, e);
    }
  }

  lemma StartRemains(batchId: string, cfg: Config)
    ensures Remaining(Start(batchId, cfg)) == 2 * |cfg.order| + 2
  {
  }

  lemma StuckMeans(s: State)
    requires s.next <= |s.cfg.order|
    ensures Stuck(s) <==> Ended(s)
  {
    if Stuck(s) {
      assert !Enabled(s, NextChunk) && !Enabled(s, Catch);
      if row :| row in s.inFlight {
        assert Enabled(s, JobEnds(row, Failure(0)));
      }
    }
  }

  /**
    A run stops exactly when its batch has returned or been rejected and every job that was started has ended;
    it does so after 2n + 2 moves at the latest.
  */
  lemma StopsIff(batchId: string, cfg: Config, events: seq<Event>)
    requires cfg.width > 0 && Run(Start(batchId, cfg), events).Some?
    ensures Stuck(Run(Start(batchId, cfg), events).value) <==> Ended(Run(Start(batchId, cfg), events).value)
    ensures Moves(events) <= 2 * |cfg.order| + 2
  {
    RunBounded(batchId, cfg, events);
    StuckMeans(Run(Start(batchId, cfg), events).value);
  }

  /** However a run began, and whatever choices it makes, it can always be carried on to its end. */
  lemma {:induction false} Finishes(batchId: string, cfg: Config, events: seq<Event>) returns (more: seq<Event>)
    requires cfg.width > 0 && Run(Start(batchId, cfg), events).Some?
    ensures Run(Start(batchId, cfg), events + more).Some? && Ended(Run(Start(batchId, cfg), events + more).value)
    ensures Cancel !in more
    decreases 2 * |cfg.order| + 2 - Moves(events)
  {
    hide Run, Ended, Stuck, Step, Moves, Enabled;
    var s := Run(Start(batchId, cfg), events).value;
    RunBounded(batchId, cfg, events);
    StuckMeans(s);
    if Ended(s) {
      more := [];
      assert events + [] == events;
    } else {
      var e := NextMove(s);
      RunExtends(Start(batchId, cfg), events, e);
      MoreMoves(events, e);
      RunBounded(batchId, cfg, events + [e]);
      more := Finishes(batchId, cfg, events + [e]);
      assert events + [e] + more == events + ([e] + more);
      more := [e] + more;
    }
  }

  lemma NextMove(s: State) returns (e: Event)
    requires !Stuck(s)
    ensures Enabled(s, e) && e != Cancel
  {
    e :| Enabled(s, e) && e != Cancel;
  }

  lemma MoreMoves(events: seq<Event>, e: Event)
    ensures Moves(events + [e]) == Moves(events) + if e == Cancel then 0 else 1
  {
    assert (events + [e])[..|events|] == events;
  }
}
