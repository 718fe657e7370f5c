/** What every run of the scan protocol keeps, and how it ends. */
module ScanSafety {
  import opened Payloads
  import opened Summary
  import opened Dispatcher
  import opened Tasks
  import opened ScanProtocol

  // ------------------------------------------------------------ invariants

  ghost predicate RowsOk(s: State) {
    && UniqueEngines(s.db.rows)
    && forall r | r in s.db.rows :: r.engine in s.engines || (r.engine == ORCHESTRATOR && r.status == "error")
  }

  predicate JobOk(s: State) {
    s.db.job.Some? ==>
      var job := s.db.job.value;
      && (Terminal(job.status) ==> job.completedAt.Some?)
      && (job.status in {DONE, DONE_WITH_ERRORS} ==> s.coordinator == Ended(true))
      && (s.coordinator.Ended? ==> Terminal(job.status))
      && (!Released(s.coordinator) ==> !Terminal(job.status))
  }

  ghost predicate FinalOk(s: State) {
    s.coordinator == Ended(true) ==>
      && s.dispatched && AllFinished(s.tasks)
      && s.db.job.Some? && s.db.job.value.status == FinalStatus(s.db.rows)
  }

  predicate Untouched(s: State) {
    s.db.rows == [] && s.lost == {} && forall i | 0 <= i < |s.tasks| :: s.tasks[i].Waiting?
  }

  predicate TasksOk(s: State) {
    && |s.tasks| == |s.engines|
    && (s.coordinator.FanOut? ==> s.dispatched)
    && (s.dispatched ==> s.engines != [] && Released(s.coordinator))
    && (!Released(s.coordinator) ==> Untouched(s))
    && s.lost <= (set e | e in s.engines)
  }

  /** A row of its own, or a report under the orchestrator's name, or nothing at all. */
  predicate Covered(db: Db, lost: set<string>, engine: string) {
    Find(db.rows, engine).Some? || Find(db.rows, ORCHESTRATOR).Some? || engine in lost
  }

  predicate Reported(p: TaskPhase) { p.Finished? || p.ReportStatus? }

  predicate TaskOk(p: TaskPhase, db: Db, lost: set<string>, engine: string, dispatched: bool) {
    && (Find(db.rows, engine).Some? ==> p.Finished?)
    && (engine in lost ==> Reported(p) && Find(db.rows, engine).None?)
    && (dispatched && Reported(p) ==> Covered(db, lost, engine))
  }

  predicate EngineRowsOk(s: State)
    requires |s.tasks| == |s.engines|
  {
    forall i | 0 <= i < |s.engines| :: TaskOk(s.tasks[i], s.db, s.lost, s.engines[i], s.dispatched)
  }

  ghost predicate Inv(s: State) {
    ProperEngines(s.engines) && TasksOk(s) && RowsOk(s) && JobOk(s) && FinalOk(s) && EngineRowsOk(s)
  }

  // ------------------------------------------------------ rows under upsert

  lemma UpsertEffect(rows: seq<EngineRow>, row: EngineRow)
    requires UniqueEngines(rows)
    ensures UniqueEngines(Upsert(rows, row))
    ensures forall e :: Find(Upsert(rows, row), e) == if e == row.engine then Some(row) else Find(rows, e)
    ensures forall r | r in Upsert(rows, row) :: r == row || r in rows
  {
    UpsertUnique(rows, row);
    UpsertMembers(rows, row);
    forall e ensures Find(Upsert(rows, row), e) == if e == row.engine then Some(row) else Find(rows, e) {
      FindUpsert(rows, row, e);
    }
  }

  /** The writes an engine task can make: its own row while it works, the
      orchestrator's error row while it reports, and the status "error". */
  ghost predicate LocalEffect(l: Local, l': Local, engine: string) {
    || (l'.db == l.db && l'.lost == l.lost && !Reported(l'.phase))
    || (exists row: EngineRow ::
          && row.engine == engine && !Reported(l.phase)
          && l' == Local(Finished, l.db.(rows := Upsert(l.db.rows, row)), l.lost))
    || (exists row: EngineRow ::
          && row.engine == ORCHESTRATOR && row.status == "error" && l.phase.ReportRow?
          && l' == Local(ReportStatus, l.db.(rows := Upsert(l.db.rows, row)), l.lost))
    || (!Reported(l.phase) && Reported(l'.phase) && l'.db == l.db && l'.lost == l.lost + {engine})
    || (exists at :: l.phase.ReportStatus? && l' == Local(Finished, Marked(l.db, FAILED, Some(at)), l.lost))
  }

  lemma RecordedIsUpsert(db: Db, engine: string, status: string, payload: Payload, at: int)
    requires CanStore(db, payload)
    ensures exists row: EngineRow :: row.engine == engine && row.status == status
                                     && Recorded(db, engine, status, payload, at) == db.(rows := Upsert(db.rows, row))
  {
    var row := EngineRow(engine, status, StoredPayload(payload, engine, status).value, at);
    assert Recorded(db, engine, status, payload, at) == db.(rows := Upsert(db.rows, row));
  }

  lemma TaskStepEffect(l: Local, engine: string, e: TaskEvent)
    requires TaskEnabled(l.phase, e)
    ensures LocalEffect(l, TaskStep(l, engine, e), engine)
  {
    match e
    case EngineDisabled(landed, at) =>
      if landed && l.db.job.Some? {
        RecordedIsUpsert(l.db, engine, "error", ErrorPayload(DISABLED), at);
      }
    case Attempt(landed, at) =>
      var o := l.phase.outcome;
      if landed && CanStore(l.db, OutcomePayload(o)) {
        RecordedIsUpsert(l.db, engine, OutcomeStatus(o), OutcomePayload(o), at);
      }
    case ReportsRow(landed, at) =>
      if landed && l.db.job.Some? {
        RecordedIsUpsert(l.db, ORCHESTRATOR, "error", ErrorPayload(l.phase.message), at);
      }
    case _ =>
  }

  // -------------------------------------------- preservation, task by task

  ghost predicate Moving(s: State, i: nat) {
    Inv(s) && i < |s.tasks| && Released(s.coordinator) && !s.tasks[i].Finished?
  }

  function Moved(s: State, i: nat, l: Local): State
    requires i < |s.tasks|
  {
    s.(tasks := s.tasks[i := l.phase], db := l.db, lost := l.lost)
  }

  lemma NotYetFinal(s: State, i: nat)
    requires Moving(s, i)
    ensures s.coordinator != Ended(true)
    ensures forall j | 0 <= j < |s.engines| && j != i :: s.engines[j] != s.engines[i]
    ensures s.engines[i] != ORCHESTRATOR && s.engines[i] in s.engines
  {
  }

  lemma QuietMove(s: State, i: nat, p: TaskPhase)
    requires Moving(s, i) && !Reported(p) && !Reported(s.tasks[i])
    ensures Inv(Moved(s, i, Local(p, s.db, s.lost)))
  {
  }

  lemma OwnRowMove(s: State, i: nat, row: EngineRow)
    requires Moving(s, i) && !Reported(s.tasks[i]) && row.engine == s.engines[i]
    ensures Inv(Moved(s, i, Local(Finished, s.db.(rows := Upsert(s.db.rows, row)), s.lost)))
  {
    NotYetFinal(s, i);
    UpsertEffect(s.db.rows, row);
    var s' := Moved(s, i, Local(Finished, s.db.(rows := Upsert(s.db.rows, row)), s.lost));
    forall j | 0 <= j < |s.engines| ensures TaskOk(s'.tasks[j], s'.db, s'.lost, s.engines[j], s.dispatched) {
      assert TaskOk(s.tasks[j], s.db, s.lost, s.engines[j], s.dispatched);
    }
  }

  lemma OrchestratorRowMove(s: State, i: nat, row: EngineRow)
    requires Moving(s, i) && s.tasks[i].ReportRow? && row.engine == ORCHESTRATOR && row.status == "error"
    ensures Inv(Moved(s, i, Local(ReportStatus, s.db.(rows := Upsert(s.db.rows, row)), s.lost)))
  {
    NotYetFinal(s, i);
    UpsertEffect(s.db.rows, row);
    var s' := Moved(s, i, Local(ReportStatus, s.db.(rows := Upsert(s.db.rows, row)), s.lost));
    forall j | 0 <= j < |s.engines| ensures TaskOk(s'.tasks[j], s'.db, s'.lost, s.engines[j], s.dispatched) {
      assert TaskOk(s.tasks[j], s.db, s.lost, s.engines[j], s.dispatched);
      assert s.engines[j] != ORCHESTRATOR;
    }
  }

  lemma LostMove(s: State, i: nat, p: TaskPhase)
    requires Moving(s, i) && !Reported(s.tasks[i]) && Reported(p)
    ensures Inv(Moved(s, i, Local(p, s.db, s.lost + {s.engines[i]})))
  {
    NotYetFinal(s, i);
    var s' := Moved(s, i, Local(p, s.db, s.lost + {s.engines[i]}));
    forall j | 0 <= j < |s.engines| ensures TaskOk(s'.tasks[j], s'.db, s'.lost, s.engines[j], s.dispatched) {
      assert TaskOk(s.tasks[j], s.db, s.lost, s.engines[j], s.dispatched);
    }
  }

  lemma StatusMove(s: State, i: nat, at: int)
    requires Moving(s, i) && s.tasks[i].ReportStatus?
    ensures Inv(Moved(s, i, Local(Finished, Marked(s.db, FAILED, Some(at)), s.lost)))
  {
  }

  lemma TaskMoveKeepsInv(s: State, i: nat, e: TaskEvent)
    requires Moving(s, i) && TaskEnabled(s.tasks[i], e)
    ensures Inv(Moved(s, i, TaskStep(Local(s.tasks[i], s.db, s.lost), s.engines[i], e)))
  {
    var l, engine := Local(s.tasks[i], s.db, s.lost), s.engines[i];
    var l' := TaskStep(l, engine, e);
    TaskStepEffect(l, engine, e);
    if l'.db == l.db && l'.lost == l.lost && !Reported(l'.phase) {
      QuietMove(s, i, l'.phase);
    } else if row: EngineRow :| row.engine == engine && !Reported(l.phase)
                               && l' == Local(Finished, l.db.(rows := Upsert(l.db.rows, row)), l.lost) {
      OwnRowMove(s, i, row);
    } else if row: EngineRow :| row.engine == ORCHESTRATOR && row.status == "error" && l.phase.ReportRow?
                               && l' == Local(ReportStatus, l.db.(rows := Upsert(l.db.rows, row)), l.lost) {
      OrchestratorRowMove(s, i, row);
    } else if !Reported(l.phase) && Reported(l'.phase) && l'.db == l.db && l'.lost == l.lost + {engine} {
      LostMove(s, i, l'.phase);
    } else {
      var at :| l.phase.ReportStatus? && l' == Local(Finished, Marked(l.db, FAILED, Some(at)), l.lost);
      StatusMove(s, i, at);
    }
  }

  // ------------------------------------------ preservation, the coordinator

  /** Serialising the rows in place keeps every engine and status. */
  lemma SameStatuses(rows: seq<EngineRow>, parse: Parser)
    ensures forall r | r in RowsAfter(rows, parse) :: exists q :: q in rows && r.engine == q.engine && r.status == q.status
  {
  }

  lemma FinalStatusByStatuses(a: seq<EngineRow>, b: seq<EngineRow>)
    requires |a| == |b| && forall i | 0 <= i < |a| :: a[i].status == b[i].status
    ensures FinalStatus(a) == FinalStatus(b)
  {
    StatusesByIndex(a);
    StatusesByIndex(b);
  }

  lemma StatusesByIndex(rows: seq<EngineRow>)
    ensures (forall r | r in rows :: !Succeeded(r)) <==> (forall i | 0 <= i < |rows| :: rows[i].status != "success")
    ensures (forall r | r in rows :: Succeeded(r)) <==> (forall i | 0 <= i < |rows| :: rows[i].status == "success")
  {
    forall i | 0 <= i < |rows| ensures rows[i] in rows {
    }
  }

  lemma SameFinalStatus(rows: seq<EngineRow>, parse: Parser)
    ensures FinalStatus(RowsAfter(rows, parse)) == FinalStatus(rows)
    ensures UniqueEngines(rows) ==> UniqueEngines(RowsAfter(rows, parse))
  {
    FinalStatusByStatuses(RowsAfter(rows, parse), rows);
  }

  lemma {:induction false} FindAfter(rows: seq<EngineRow>, parse: Parser, engine: string)
    ensures Find(RowsAfter(rows, parse), engine).Some? <==> Find(rows, engine).Some?
    ensures Find(rows, engine).Some? ==>
              Find(RowsAfter(rows, parse), engine).value.status == Find(rows, engine).value.status
  {
    if rows != [] {
      assert RowsAfter(rows, parse)[1..] == RowsAfter(rows[1..], parse);
      FindAfter(rows[1..], parse, engine);
    }
  }

  lemma FinalizeKeepsInv(s: State, at: int, env: Env)
    requires Inv(s) && CoordinatorEnabled(s, Finalize(at), env) && s.db.job.Some?
    ensures Inv(CoordinatorStep(s, Finalize(at), env))
  {
    var s' := CoordinatorStep(s, Finalize(at), env);
    SameStatuses(s.db.rows, env.parse);
    SameFinalStatus(s.db.rows, env.parse);
    FindAfter(s.db.rows, env.parse, ORCHESTRATOR);
    forall j | 0 <= j < |s.engines| ensures TaskOk(s'.tasks[j], s'.db, s'.lost, s.engines[j], s.dispatched) {
      assert TaskOk(s.tasks[j], s.db, s.lost, s.engines[j], s.dispatched);
      FindAfter(s.db.rows, env.parse, s.engines[j]);
    }
  }

  lemma ReportKeepsInv(s: State, landed: bool, at: int, env: Env)
    requires Inv(s) && s.coordinator.ReportingRow?
    ensures Inv(CoordinatorStep(s, ReportRowNow(landed, at), env))
  {
    var s' := CoordinatorStep(s, ReportRowNow(landed, at), env);
    if landed && s.db.job.Some? {
      RecordedIsUpsert(s.db, ORCHESTRATOR, "error", ErrorPayload(s.coordinator.message), at);
      var row: EngineRow :| row.engine == ORCHESTRATOR && row.status == "error"
                            && s'.db == s.db.(rows := Upsert(s.db.rows, row));
      UpsertEffect(s.db.rows, row);
      forall j | 0 <= j < |s.engines| ensures TaskOk(s'.tasks[j], s'.db, s'.lost, s.engines[j], s.dispatched) {
        assert TaskOk(s.tasks[j], s.db, s.lost, s.engines[j], s.dispatched);
        assert s.engines[j] != ORCHESTRATOR;
      }
    } else {
      assert s'.db == s.db;
    }
  }

  lemma CoordinatorMoveKeepsInv(s: State, e: CoordinatorEvent, env: Env)
    requires Inv(s) && CoordinatorEnabled(s, e, env)
    ensures Inv(CoordinatorStep(s, e, env))
  {
    var s' := CoordinatorStep(s, e, env);
    match e
    case Finalize(at) =>
      if s.db.job.Some? {
        FinalizeKeepsInv(s, at, env);
      }
    case ReportRowNow(landed, at) => ReportKeepsInv(s, landed, at, env);
    case _ => QuietCoordinatorMove(s, s');
  }

  /** A coordinator move that leaves the rows alone, and changes tasks or the
      dispatch flag only before any row or report exists. */
  lemma QuietCoordinatorMove(s: State, s': State)
    requires Inv(s) && s'.engines == s.engines && s'.db.rows == s.db.rows && s'.lost == s.lost
    requires !Released(s.coordinator) || (s'.tasks == s.tasks && s'.dispatched == s.dispatched)
    requires s'.dispatched ==> s'.tasks == s.tasks
    requires TasksOk(s') && JobOk(s') && s'.coordinator != Ended(true)
    ensures Inv(s')
  {
  }

  lemma StepKeepsInv(s: State, e: Event, env: Env)
    requires Inv(s) && Enabled(s, e, env)
    ensures Inv(Step(s, e, env))
  {
    match e
    case Task(i, move) => TaskMoveKeepsInv(s, i, move);
    case Coordinate(step) => CoordinatorMoveKeepsInv(s, step, env);
  }

  /** Every state a run can reach keeps the invariant. */
  lemma {:induction false} RunKeepsInv(s: State, events: seq<Event>, env: Env)
    requires Inv(s) && After(s, events, env).Some?
    ensures Inv(After(s, events, env).value)
  {
    if events != [] {
      RunKeepsInv(s, events[..|events| - 1], env);
      StepKeepsInv(After(s, events[..|events| - 1], env).value, events[|events| - 1], env);
    }
  }

  lemma FreshInv(engines: seq<string>, stored: bool, hasKey: bool)
    requires ProperEngines(engines)
    ensures Inv(Fresh(engines, stored, hasKey))
  {
  }

  // ------------------------------------------------- one engine alone

  /** One engine's task driven to its end without interference: the n-th
      attempt to store the result lands when `lands[n]`. */
  function Drive(l: Local, engine: string, o: Outcome, at: int, lands: seq<bool>, reportLands: bool): Local
    requires |lands| == PERSISTENCE_RETRIES && (l.phase.Persisting? ==> l.phase.failures < PERSISTENCE_RETRIES)
    decreases Rank(l.phase)
  {
    match l.phase
    case Waiting => Drive(TaskStep(l, engine, EngineRan(o)), engine, o, at, lands, reportLands)
    case Persisting(_, f) => Drive(TaskStep(l, engine, Attempt(lands[f], at)), engine, o, at, lands, reportLands)
    case ReportRow(_) => Drive(TaskStep(l, engine, ReportsRow(reportLands, at)), engine, o, at, lands, reportLands)
    case ReportStatus => Drive(TaskStep(l, engine, ReportsStatus(at)), engine, o, at, lands, reportLands)
    case Finished => l
  }

  lemma DriveReport(l: Local, engine: string, o: Outcome, at: int, lands: seq<bool>, reportLands: bool)
    requires |lands| == PERSISTENCE_RETRIES && l.phase.ReportRow?
    ensures Drive(l, engine, o, at, lands, reportLands).db
         == Marked(DispatchErrorRow(l.db, l.phase.message, at, reportLands), FAILED, Some(at))
  {
    var reported := TaskStep(l, engine, ReportsRow(reportLands, at));
    assert reported.db == DispatchErrorRow(l.db, l.phase.message, at, reportLands);
    assert Drive(reported, engine, o, at, lands, reportLands)
        == Drive(TaskStep(reported, engine, ReportsStatus(at)), engine, o, at, lands, reportLands);
  }

  lemma {:induction false} DriveAttempts(l: Local, engine: string, o: Outcome, at: int, lands: seq<bool>, reportLands: bool)
    requires |lands| == PERSISTENCE_RETRIES && l.phase.Persisting? && l.phase.outcome == o
    requires l.phase.failures < PERSISTENCE_RETRIES
    ensures Drive(l, engine, o, at, lands, reportLands).db
         == AfterPersist(l.db, engine, o, at, true in lands[l.phase.failures..], reportLands)
    decreases PERSISTENCE_RETRIES - l.phase.failures
  {
    var f := l.phase.failures;
    var next := TaskStep(l, engine, Attempt(lands[f], at));
    assert lands[f..] == [lands[f]] + lands[f + 1..];
    assert Drive(l, engine, o, at, lands, reportLands) == Drive(next, engine, o, at, lands, reportLands);
    if !(lands[f] && CanStore(l.db, OutcomePayload(o))) {
      if f + 1 < PERSISTENCE_RETRIES {
        DriveAttempts(next, engine, o, at, lands, reportLands);
      } else {
        DriveReport(next, engine, o, at, lands, reportLands);
      }
    }
  }

  /** The retry loop, run step by step as the protocol runs it, has the effect
      the loop itself is proved to have. */
  lemma TaskAloneMatchesLoop(db: Db, lost: set<string>, engine: string, o: Outcome, at: int, lands: seq<bool>, reportLands: bool)
    requires |lands| == PERSISTENCE_RETRIES
    ensures Drive(Local(Waiting, db, lost), engine, o, at, lands, reportLands).db
         == AfterPersist(db, engine, o, at, true in lands, reportLands)
  {
    var l := Local(Waiting, db, lost);
    var ran := TaskStep(l, engine, EngineRan(o));
    assert Drive(l, engine, o, at, lands, reportLands) == Drive(ran, engine, o, at, lands, reportLands);
    DriveAttempts(ran, engine, o, at, lands, reportLands);
    assert lands[0..] == lands;
  }
}
