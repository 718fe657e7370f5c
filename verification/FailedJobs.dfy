/** A failed job stays failed as long as no outcome is lost: what the upload
    cache relies on (app/api/v1/scan.py:52, app/services/orchestrator/dispatcher.py:117-121, 166-177). */
module FailedJobs {
  import opened Payloads
  import opened Summary
  import opened Dispatcher
  import opened Tasks
  import opened ScanProtocol
  import opened ScanSafety
  import opened ScanOutcomes
  import Upload

  /** Before finalize, a status "error" comes with the orchestrator's row. */
  predicate FailureRecorded(s: State) {
    s.coordinator.FanOut? && s.lost == {} && s.db.job.Some? && s.db.job.value.status == FAILED ==>
      Find(s.db.rows, ORCHESTRATOR).Some?
  }

  lemma LostOnlyGrows(s: State, e: Event, env: Env)
    requires Enabled(s, e, env)
    ensures s.lost <= Step(s, e, env).lost
  {
  }

  /** A task about to set the status "error" has stored its report. */
  lemma ReportIsStored(s: State, i: nat)
    requires Inv(s) && s.coordinator.FanOut? && s.lost == {} && i < |s.tasks| && s.tasks[i].ReportStatus?
    ensures Find(s.db.rows, ORCHESTRATOR).Some?
  {
    assert TaskOk(s.tasks[i], s.db, s.lost, s.engines[i], s.dispatched);
  }

  lemma TaskKeepsStatus(l: Local, engine: string, e: TaskEvent)
    requires TaskEnabled(l.phase, e) && l.db.job.Some?
    ensures var l' := TaskStep(l, engine, e);
            l'.db.job.Some? && l'.db.job.value.status == if e.ReportsStatus? then FAILED else l.db.job.value.status
  {
  }

  lemma StepRecordsFailure(s: State, e: Event, env: Env)
    requires Inv(s) && Enabled(s, e, env) && s.db.job.Some? && FailureRecorded(s)
    ensures FailureRecorded(Step(s, e, env))
  {
    match e
    case Task(i, move) =>
      TaskKeepsStatus(Local(s.tasks[i], s.db, s.lost), s.engines[i], move);
      LostOnlyGrows(s, e, env);
      if s.coordinator.FanOut? && s.lost == {} && s.tasks[i].ReportStatus? { ReportIsStored(s, i); }
      if Find(s.db.rows, ORCHESTRATOR).Some? { StepKeepsRow(s, e, env, ORCHESTRATOR); }
    case Coordinate(_) =>
  }

  lemma {:induction false} RunRecordsFailure(s: State, events: seq<Event>, env: Env)
    requires Inv(s) && s.db.job.Some? && FailureRecorded(s) && After(s, events, env).Some?
    ensures FailureRecorded(After(s, events, env).value)
  {
    if events != [] {
      var init := events[..|events| - 1];
      RunRecordsFailure(s, init, env);
      RunKeepsInv(s, init, env);
      RunKeepsJob(s, init, env);
      StepRecordsFailure(After(s, init, env).value, events[|events| - 1], env);
    }
  }

  predicate HasFailed(s: State) { s.db.job.Some? && Upload.Failed(s.db.job.value.status) }

  /** Finalize never closes a job as done beside an orchestrator's row. */
  lemma FinalizeKeepsFailure(s: State)
    requires Inv(s) && Find(s.db.rows, ORCHESTRATOR).Some?
    ensures Upload.Failed(FinalStatus(s.db.rows))
  {
    FindMember(s.db.rows, ORCHESTRATOR);
    var row := Find(s.db.rows, ORCHESTRATOR).value;
    assert row in s.db.rows && !Succeeded(row);
  }

  lemma StepKeepsFailure(s: State, e: Event, env: Env)
    requires Inv(s) && Enabled(s, e, env) && FailureRecorded(s) && HasFailed(s) && s.lost == {}
    ensures HasFailed(Step(s, e, env))
  {
    match e
    case Task(i, move) => TaskKeepsStatus(Local(s.tasks[i], s.db, s.lost), s.engines[i], move);
    case Coordinate(step) =>
      if step.Finalize? { FinalizeKeepsFailure(s); }
  }

  lemma {:induction false} RunKeepsFailure(s: State, events: seq<Event>, env: Env)
    requires Inv(s) && FailureRecorded(s) && HasFailed(s) && After(s, events, env).Some?
    requires After(s, events, env).value.lost == {}
    ensures HasFailed(After(s, events, env).value)
  {
    if events != [] {
      var init, last := events[..|events| - 1], events[|events| - 1];
      var mid := After(s, init, env).value;
      LostOnlyGrows(mid, last, env);
      RunKeepsFailure(s, init, env);
      RunKeepsInv(s, init, env);
      RunRecordsFailure(s, init, env);
      StepKeepsFailure(mid, last, env);
    }
  }

  /** In every interleaving and every continuation, a job seen as failed is
      failed later too, unless the outcome of some engine was lost. */
  lemma FailedJobsStayFailed(s: State, engines: seq<string>, hasKey: bool, events: seq<Event>, later: seq<Event>, env: Env)
    requires Reached(s, engines, true, hasKey, events, env) && HasFailed(s)
    requires After(s, later, env).Some? && After(s, later, env).value.lost == {}
    ensures HasFailed(After(s, later, env).value)
  {
    var start := Fresh(engines, true, hasKey);
    FreshInv(engines, true, hasKey);
    ReachedInv(s, engines, true, hasKey, events, env);
    RunRecordsFailure(start, events, env);
    RunKeepsFailure(s, later, env);
  }

  predicate AllSucceeded(rows: seq<EngineRow>) { rows != [] && forall r | r in rows :: Succeeded(r) }

  lemma DoneByRows(rows: seq<EngineRow>)
    ensures FinalStatus(rows) == DONE <==> AllSucceeded(rows)
    ensures Terminal(FinalStatus(rows))
  {
    if rows != [] {
      assert rows[0] in rows;
    }
  }

  /** The one step that revives a failed job: finalize, on rows that all
      succeeded. */
  lemma OnlyFinalizeRevives(s: State, e: Event, env: Env)
    requires Inv(s) && Enabled(s, e, env) && HasFailed(s)
    ensures !HasFailed(Step(s, e, env)) <==> e.Coordinate? && e.step.Finalize? && AllSucceeded(s.db.rows)
  {
    DoneByRows(s.db.rows);
    match e
    case Task(i, move) => TaskKeepsStatus(Local(s.tasks[i], s.db, s.lost), s.engines[i], move);
    case Coordinate(_) =>
  }

  /** In every interleaving and every continuation, a job seen as failed is no
      longer failed iff it was finalized on rows that all succeeded, and then
      the outcome of some engine was lost. */
  lemma FailedJobRevivedExactly(s: State, engines: seq<string>, hasKey: bool, events: seq<Event>, later: seq<Event>, env: Env)
    requires Reached(s, engines, true, hasKey, events, env) && HasFailed(s) && After(s, later, env).Some?
    ensures var t := After(s, later, env).value;
            && (!HasFailed(t) <==> t.coordinator == Ended(true) && AllSucceeded(t.db.rows))
            && (!HasFailed(t) ==> t.lost != {})
  {
    var t := After(s, later, env).value;
    ReachedInv(s, engines, true, hasKey, events, env);
    RunKeepsInv(s, later, env);
    TerminalIsStable(s, later, env);
    DoneByRows(t.db.rows);
    if t.lost == {} { FailedJobsStayFailed(s, engines, hasKey, events, later, env); }
  }

  /** With every unretried write landing, what a scan does to the status of its
      job is a move the upload theorems admit. */
  lemma ScanMovesAreAdmissible(s: State, engines: seq<string>, hasKey: bool, events: seq<Event>, later: seq<Event>, env: Env,
                               store: Upload.Store, j: nat, limits: string -> int)
    requires Reached(s, engines, true, hasKey, events, env) && After(s, later, env).Some?
    requires (forall e | e in events :: ReportsLand(e)) && (forall e | e in later :: ReportsLand(e))
    requires s.db.job.Some? && j < |store.jobs| && store.jobs[j].status == s.db.job.value.status
    ensures After(s, later, env).value.db.job.Some?
    ensures Upload.Admissible(store, Upload.Moves(j, After(s, later, env).value.db.job.value.status), limits)
  {
    NothingLost(Fresh(engines, true, hasKey), events, env);
    NothingLost(s, later, env);
    RunKeepsJob(s, later, env);
    if HasFailed(s) { FailedJobsStayFailed(s, engines, hasKey, events, later, env); }
  }

  /** The proviso is needed: when the report of a result that could not be
      stored is lost too, the job fails and finalize then closes it as done. */
  lemma FailedJobCanTurnDone(env: Env) returns (events: seq<Event>, s: State, closed: State)
    ensures Reached(s, PAIR, true, true, events, env) && HasFailed(s)
    ensures Enabled(s, Coordinate(Finalize(3)), env) && closed == Step(s, Coordinate(Finalize(3)), env)
    ensures closed.db.job.Some? && closed.db.job.value.status == DONE
  {
    var start, o := Fresh(PAIR, true, true), CleanReport(env);
    PairProper();
    CleanReportSucceeds(env);
    var row := OutcomeRow("clamav", o, 1);
    var stored;
    events, stored := OneRowStored(o, env);
    assert stored.db.rows == [row] && Succeeded(row);
    events, s := LoseSecond(start, events, stored, o, env);
    CloseSingle(s, row, env);
    closed := Step(s, Coordinate(Finalize(3)), env);
  }

  /** The second engine's result and its report are lost, the status is set. */
  lemma LoseSecond(start: State, before: seq<Event>, mid: State, o: Outcome, env: Env) returns (events: seq<Event>, s: State)
    requires After(start, before, env) == Some(mid) && mid.engines == PAIR
    requires mid.coordinator.FanOut? && mid.tasks == [Finished, Waiting] && mid.db.job.Some?
    ensures After(start, events, env) == Some(s)
    ensures s.coordinator.FanOut? && AllFinished(s.tasks) && s.db.rows == mid.db.rows
    ensures HasFailed(s)
  {
    events, s := Extend(start, before, mid, Task(1, EngineRan(o)), env);
    events, s := Extend(start, events, s, Task(1, Attempt(false, 2)), env);
    events, s := Extend(start, events, s, Task(1, Attempt(false, 2)), env);
    events, s := Extend(start, events, s, Task(1, Attempt(false, 2)), env);
    events, s := Extend(start, events, s, Task(1, ReportsRow(false, 2)), env);
    events, s := Extend(start, events, s, Task(1, ReportsStatus(2)), env);
  }

  /** A scan starts from the job an upload leaves: pending, not completed, and
      with a usage row that is queued iff it has a key. */
  lemma ScansStartFromUploads(store: Upload.Store, r: Upload.Request, engines: seq<string>)
    requires Upload.Handle(store, r).1.Queued?
    ensures var (after, reply) := Upload.Handle(store, r);
            var start := Fresh(engines, true, r.key.Some?);
            && start.db.job == Some(Job(after.jobs[reply.job].status, None, after.jobs[reply.job].key.Some?))
            && start.db.rows == [] && start.db.usage == (if r.key.Some? then Some(Usage("queued", None)) else None)
            && start.coordinator == Starting && forall i | 0 <= i < |engines| :: start.tasks[i] == Waiting
  {
    Upload.QueuedMeaning(store, r);
  }
}
