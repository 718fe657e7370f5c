/** The scan job as a protocol: a coordinator, one task per engine, and their
    transactions interleaved arbitrarily (app/workers/tasks.py). */
module ScanProtocol {
  import opened Payloads
  import opened Results
  import opened Summary
  import opened Dispatcher
  import opened Tasks

  datatype TaskPhase =
    | Waiting
    | Persisting(outcome: Outcome, failures: nat)
    | ReportRow(message: string)
    | ReportStatus
    | Finished

  datatype Coordinator =
    | Starting
    | Launching
    | FanOut
    | ReportingRow(message: string)
    | ReportingStatus
    | Ended(finalized: bool)

  /** `lost` names the engines whose outcome reached the table in no form. */
  datatype State = State(
    engines: seq<string>, db: Db, tasks: seq<TaskPhase>, coordinator: Coordinator, dispatched: bool, lost: set<string>)

  /** The settings fixed for a run. */
  datatype Env = Env(weights: Weights, parse: Parser)

  /** What one engine's task can do next. */
  datatype TaskEvent =
    | EngineRan(outcome: Outcome)
    | EngineDisabled(landed: bool, at: int)
    | NoFile
    | Attempt(landed: bool, at: int)
    | ReportsRow(landed: bool, at: int)
    | ReportsStatus(at: int)

  /** What the scan, its callback and its error handler can do next. */
  datatype CoordinatorEvent =
    | StartScan
    | RefuseScan
    | Enqueue
    | EnqueueFails(sent: set<nat>)
    | Finalize(at: int)
    | FinalizeCrashes
    | ChordFails
    | ReportRowNow(landed: bool, at: int)
    | ReportStatusNow(at: int)

  datatype Event = Task(i: nat, move: TaskEvent) | Coordinate(step: CoordinatorEvent)

  const DISABLED := "Engine is not configured or has been disabled"

  predicate AllFinished(tasks: seq<TaskPhase>) { forall i | 0 <= i < |tasks| :: tasks[i].Finished? }

  /** Engine work can run once the fan-out was attempted. */
  predicate Released(c: Coordinator) { !c.Starting? && !c.Launching? }

  // ------------------------------------------------------- one engine task

  /** What an engine task can see and change. */
  datatype Local = Local(phase: TaskPhase, db: Db, lost: set<string>)

  predicate TaskEnabled(phase: TaskPhase, e: TaskEvent) {
    match e
    case EngineRan(_) => phase.Waiting?
    case EngineDisabled(_, _) => phase.Waiting?
    case NoFile => phase.Waiting?
    case Attempt(_, _) => phase.Persisting?
    case ReportsRow(_, _) => phase.ReportRow?
    case ReportsStatus(_) => phase.ReportStatus?
  }

  function TaskStep(l: Local, engine: string, e: TaskEvent): Local
    requires TaskEnabled(l.phase, e)
  {
    match e
    case EngineRan(outcome) => l.(phase := Persisting(outcome, 0))
    case EngineDisabled(landed, at) =>
      if landed && l.db.job.Some? then
        Local(Finished, Recorded(l.db, engine, "error", ErrorPayload(DISABLED), at), l.lost)
      else Local(Finished, l.db, l.lost + {engine})
    case NoFile => l.(phase := ReportRow("Engine task missing file location"))
    case Attempt(landed, at) =>
      var o, f := l.phase.outcome, l.phase.failures;
      if landed && CanStore(l.db, OutcomePayload(o)) then
        Local(Finished, Recorded(l.db, engine, OutcomeStatus(o), OutcomePayload(o), at), l.lost)
      else if f + 1 >= PERSISTENCE_RETRIES then
        l.(phase := ReportRow("Failed to persist engine result for " + engine))
      else l.(phase := Persisting(o, f + 1))
    case ReportsRow(landed, at) =>
      if landed && l.db.job.Some? then Local(ReportStatus, DispatchErrorRow(l.db, l.phase.message, at, true), l.lost)
      else Local(ReportStatus, l.db, l.lost + {engine})
    case ReportsStatus(at) => Local(Finished, Marked(l.db, FAILED, Some(at)), l.lost)
  }

  // -------------------------------------------------------- the coordinator

  predicate CoordinatorEnabled(s: State, e: CoordinatorEvent, env: Env) {
    match e
    case StartScan => s.coordinator.Starting?
    case RefuseScan => s.coordinator.Launching? && s.engines == []
    case Enqueue => s.coordinator.Launching? && s.engines != []
    case EnqueueFails(_) => s.coordinator.Launching? && s.engines != []
    case Finalize(_) => s.coordinator.FanOut? && AllFinished(s.tasks) && Readable(s.db.rows, env.parse)
    case FinalizeCrashes => s.coordinator.FanOut? && AllFinished(s.tasks)
    case ChordFails => s.coordinator.FanOut?
    case ReportRowNow(_, _) => s.coordinator.ReportingRow?
    case ReportStatusNow(_) => s.coordinator.ReportingStatus?
  }

  function Unsent(tasks: seq<TaskPhase>, sent: set<nat>): seq<TaskPhase> {
    seq(|tasks|, i requires 0 <= i < |tasks| => if i in sent then tasks[i] else Finished)
  }

  function CoordinatorStep(s: State, e: CoordinatorEvent, env: Env): State
    requires CoordinatorEnabled(s, e, env)
  {
    match e
    case StartScan =>
      if s.db.job.Some? then s.(db := Marked(s.db, RUNNING, None), coordinator := Launching)
      else s.(coordinator := ReportingRow("Job not found when starting scan"), tasks := Unsent(s.tasks, {}))
    case RefuseScan => s.(coordinator := ReportingRow("No engines configured or enabled"))
    case Enqueue => s.(coordinator := FanOut, dispatched := true)
    case EnqueueFails(sent) => s.(coordinator := ReportingRow("Failed to enqueue chord"), tasks := Unsent(s.tasks, sent))
    case Finalize(at) =>
      if s.db.job.Some? then s.(db := Finalized(s.db, at, env.weights, env.parse), coordinator := Ended(true))
      else s.(coordinator := ReportingRow("Job missing during finalize"))
    case FinalizeCrashes => s.(coordinator := ReportingRow("Chord failure"))
    case ChordFails => s.(coordinator := ReportingRow("Chord failure"))
    case ReportRowNow(landed, at) =>
      s.(coordinator := ReportingStatus, db := DispatchErrorRow(s.db, s.coordinator.message, at, landed))
    case ReportStatusNow(at) =>
      s.(coordinator := Ended(false), db := Marked(s.db, FAILED, Some(at)))
  }

  // ------------------------------------------------------------------ runs

  predicate Enabled(s: State, e: Event, env: Env) {
    match e
    case Task(i, move) => i < |s.tasks| && i < |s.engines| && Released(s.coordinator) && TaskEnabled(s.tasks[i], move)
    case Coordinate(step) => CoordinatorEnabled(s, step, env)
  }

  /** One transaction, or one move between transactions. */
  function Step(s: State, e: Event, env: Env): State
    requires Enabled(s, e, env)
  {
    match e
    case Task(i, move) =>
      var l := TaskStep(Local(s.tasks[i], s.db, s.lost), s.engines[i], move);
      s.(tasks := s.tasks[i := l.phase], db := l.db, lost := l.lost)
    case Coordinate(step) => CoordinatorStep(s, step, env)
  }

  /** The state after a run, or nothing when some event could not happen. */
  function After(s: State, events: seq<Event>, env: Env): Option<State> {
    if events == [] then Some(s)
    else
      match After(s, events[..|events| - 1], env)
      case None => None
      case Some(mid) =>
        if Enabled(mid, events[|events| - 1], env) then Some(Step(mid, events[|events| - 1], env)) else None
  }

  function QueuedUsage(hasKey: bool): Option<Usage> { if hasKey then Some(Usage("queued", None)) else None }

  /** A freshly uploaded job, or a job id nothing is stored under. */
  function Fresh(engines: seq<string>, stored: bool, hasKey: bool): State {
    State(engines,
          Db(if stored then Some(Job(PENDING, None, hasKey)) else None, [], QueuedUsage(stored && hasKey)),
          seq(|engines|, _ => Waiting), Starting, false, {})
  }

  /** Engine names are distinct and never the orchestrator's. */
  predicate ProperEngines(engines: seq<string>) {
    && (forall i, j | 0 <= i < j < |engines| :: engines[i] != engines[j])
    && (forall i | 0 <= i < |engines| :: engines[i] != ORCHESTRATOR && engines[i] != "")
  }

  // ----------------------------------------------------------- termination

  function Rank(p: TaskPhase): nat {
    match p
    case Waiting => 6
    case Persisting(_, f) => if f < 3 then 5 - f else 3
    case ReportRow(_) => 2
    case ReportStatus => 1
    case Finished => 0
  }

  function Work(tasks: seq<TaskPhase>): nat {
    if tasks == [] then 0 else Work(tasks[..|tasks| - 1]) + Rank(tasks[|tasks| - 1])
  }

  function CoordinatorRank(c: Coordinator): nat {
    match c
    case Starting => 5
    case Launching => 4
    case FanOut => 3
    case ReportingRow(_) => 2
    case ReportingStatus => 1
    case Ended(_) => 0
  }

  /** Outstanding phases of all tasks plus those of the coordinator. */
  function Measure(s: State): nat { Work(s.tasks) + CoordinatorRank(s.coordinator) }

  lemma {:induction false} WorkReplace(tasks: seq<TaskPhase>, i: nat, p: TaskPhase)
    requires i < |tasks|
    ensures Work(tasks[i := p]) == Work(tasks) - Rank(tasks[i]) + Rank(p)
  {
    var n := |tasks| - 1;
    if i == n {
      assert tasks[i := p][..n] == tasks[..n];
    } else {
      assert tasks[i := p][..n] == tasks[..n][i := p];
      WorkReplace(tasks[..n], i, p);
    }
  }

  lemma {:induction false} WorkUnsent(tasks: seq<TaskPhase>, sent: set<nat>)
    ensures Work(Unsent(tasks, sent)) <= Work(tasks)
  {
    if tasks != [] {
      var n := |tasks| - 1;
      assert Unsent(tasks, sent)[..n] == Unsent(tasks[..n], sent);
      WorkUnsent(tasks[..n], sent);
    }
  }

  lemma TaskStepDecreases(l: Local, engine: string, e: TaskEvent)
    requires TaskEnabled(l.phase, e)
    ensures Rank(TaskStep(l, engine, e).phase) < Rank(l.phase)
  {
  }

  /** Every event uses up work. */
  lemma StepDecreases(s: State, e: Event, env: Env)
    requires Enabled(s, e, env)
    ensures Measure(Step(s, e, env)) < Measure(s)
  {
    match e
    case Task(i, move) =>
      var l := Local(s.tasks[i], s.db, s.lost);
      TaskStepDecreases(l, s.engines[i], move);
      WorkReplace(s.tasks, i, TaskStep(l, s.engines[i], move).phase);
    case Coordinate(step) =>
      CoordinatorStepDecreases(s, step, env);
  }

  lemma CoordinatorStepDecreases(s: State, e: CoordinatorEvent, env: Env)
    requires CoordinatorEnabled(s, e, env)
    ensures Measure(CoordinatorStep(s, e, env)) < Measure(s)
  {
    match e
    case StartScan => WorkUnsent(s.tasks, {});
    case EnqueueFails(sent) => WorkUnsent(s.tasks, sent);
    case _ =>
  }

  /** A run is no longer than the work it started with: every run ends. */
  lemma {:induction false} RunsAreBounded(s: State, events: seq<Event>, env: Env)
    requires After(s, events, env).Some?
    ensures |events| + Measure(After(s, events, env).value) <= Measure(s)
  {
    if events != [] {
      var init := events[..|events| - 1];
      RunsAreBounded(s, init, env);
      StepDecreases(After(s, init, env).value, events[|events| - 1], env);
    }
  }

  // ---------------------------------------------------- what the steps do

  /** Starting a stored job marks it as running and starts no task yet; for a
      missing job no task ever starts and the error is reported. */
  lemma StartMeaning(s: State, env: Env)
    requires s.coordinator.Starting?
    ensures var next := CoordinatorStep(s, StartScan, env);
            && next.db.rows == s.db.rows && next.db.usage == s.db.usage
            && (s.db.job.Some? ==>
                  && next.db.job == Some(s.db.job.value.(status := "running..."))
                  && next.tasks == s.tasks && next.dispatched == s.dispatched && next.coordinator == Launching)
            && (s.db.job.None? ==>
                  && next.db == s.db && AllFinished(next.tasks)
                  && next.coordinator == ReportingRow("Job not found when starting scan"))
  {
  }

  /** Enqueuing dispatches every task; when it fails, only the tasks already sent
      can run, and the failure is reported. */
  lemma EnqueueMeaning(s: State, sent: set<nat>, env: Env)
    requires s.coordinator.Launching? && s.engines != []
    ensures CoordinatorStep(s, Enqueue, env) == s.(coordinator := FanOut, dispatched := true)
    ensures var next := CoordinatorStep(s, EnqueueFails(sent), env);
            && next.db == s.db && next.dispatched == s.dispatched && next.coordinator == ReportingRow("Failed to enqueue chord")
            && |next.tasks| == |s.tasks|
            && forall i | 0 <= i < |s.tasks| :: if i in sent then next.tasks[i] == s.tasks[i] else next.tasks[i].Finished?
  {
  }

  /** Whatever breaks down, the coordinator then stores a row of the orchestrator
      and marks the job as failed and completed. */
  lemma ReportingMeaning(s: State, landed: bool, at: int, env: Env)
    ensures s.coordinator.FanOut? ==>
              CoordinatorStep(s, ChordFails, env) == s.(coordinator := ReportingRow("Chord failure"))
    ensures s.coordinator.FanOut? && AllFinished(s.tasks) ==>
              CoordinatorStep(s, FinalizeCrashes, env) == s.(coordinator := ReportingRow("Chord failure"))
    ensures s.coordinator.Launching? && s.engines == [] ==>
              CoordinatorStep(s, RefuseScan, env) == s.(coordinator := ReportingRow("No engines configured or enabled"))
    ensures s.coordinator.ReportingRow? ==>
              CoordinatorStep(s, ReportRowNow(landed, at), env)
              == s.(coordinator := ReportingStatus, db := DispatchErrorRow(s.db, s.coordinator.message, at, landed))
    ensures s.coordinator.ReportingStatus? && s.db.job.Some? ==>
              var next := CoordinatorStep(s, ReportStatusNow(at), env);
              && next.coordinator == Ended(false) && next.db.rows == s.db.rows && next.db.usage == s.db.usage
              && next.db.job == Some(s.db.job.value.(status := "error", completedAt := Some(at)))
  {
  }

  /** Finalize closes a stored job once all tasks have finished; a missing job is
      reported. */
  lemma FinalizeMeaning(s: State, at: int, env: Env)
    requires CoordinatorEnabled(s, Finalize(at), env)
    ensures AllFinished(s.tasks)
    ensures var next := CoordinatorStep(s, Finalize(at), env);
            && (s.db.job.Some? ==> next.coordinator == Ended(true) && next.db == Finalized(s.db, at, env.weights, env.parse))
            && (s.db.job.None? ==> next == s.(coordinator := ReportingRow("Job missing during finalize")))
  {
  }

  /** A task that finds its engine disabled writes one error row and ends, whether
      or not the row lands; one without a file reports an error. */
  lemma ShortTasks(l: Local, engine: string, landed: bool, at: int)
    requires l.phase.Waiting? && l.db.job.Some?
    ensures var next := TaskStep(l, engine, EngineDisabled(landed, at));
            && next.phase == Finished && next.db.job == l.db.job && next.db.usage == l.db.usage
            && (landed ==> Find(next.db.rows, engine)
                           == Some(EngineRow(engine, "error",
                                             map["error" := Str("Engine is not configured or has been disabled"),
                                                 "engine" := Str(engine), "status" := Str("error")], at)))
            && (!landed ==> next.db == l.db)
    ensures TaskStep(l, engine, NoFile) == l.(phase := ReportRow("Engine task missing file location"))
  {
    RecordedMeaning(l.db, engine, "error", ErrorPayload("Engine is not configured or has been disabled"), at, "");
    assert StoredPayload(ErrorPayload("Engine is not configured or has been disabled"), engine, "error").value
        == map["error" := Str("Engine is not configured or has been disabled"),
               "engine" := Str(engine), "status" := Str("error")];
  }
}
