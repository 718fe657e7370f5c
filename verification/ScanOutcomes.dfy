/** How a scan job can end. */
module ScanOutcomes {
  import opened Payloads
  import opened Summary
  import opened Dispatcher
  import opened Normalize
  import opened Tasks
  import opened ScanProtocol
  import opened ScanSafety

  /** A state some run of the protocol reaches. */
  ghost predicate Reached(s: State, engines: seq<string>, stored: bool, hasKey: bool, events: seq<Event>, env: Env) {
    ProperEngines(engines) && After(Fresh(engines, stored, hasKey), events, env) == Some(s)
  }

  lemma ReachedInv(s: State, engines: seq<string>, stored: bool, hasKey: bool, events: seq<Event>, env: Env)
    requires Reached(s, engines, stored, hasKey, events, env)
    ensures Inv(s)
  {
    FreshInv(engines, stored, hasKey);
    RunKeepsInv(Fresh(engines, stored, hasKey), events, env);
  }

  // ---------------------------------------------------------- completion

  /** A terminal status always comes with a completion time. */
  lemma TerminalMeansCompleted(s: State, engines: seq<string>, hasKey: bool, events: seq<Event>, env: Env)
    requires Reached(s, engines, true, hasKey, events, env)
    ensures s.db.job.Some? && Terminal(s.db.job.value.status) ==> s.db.job.value.completedAt.Some?
  {
    ReachedInv(s, engines, true, hasKey, events, env);
  }

  predicate Over(s: State) { s.coordinator.Ended? && AllFinished(s.tasks) }

  /** What goes wrong outside the engines: the fan-out is not accepted, the
      callback raises, or the fan-in fails. */
  predicate Breakdown(e: Event) {
    e.Coordinate? && (e.step.EnqueueFails? || e.step.FinalizeCrashes? || e.step.ChordFails?)
  }

  /** What a task that has not finished can do next. */
  function NextMove(p: TaskPhase): TaskEvent
    requires !p.Finished?
  {
    match p
    case Waiting => NoFile
    case Persisting(_, _) => Attempt(true, 0)
    case ReportRow(_) => ReportsRow(true, 0)
    case ReportStatus => ReportsStatus(0)
  }

  /** Until everything has ended something can happen, other than the fan-in
      failing: in the fan-out a task moves while one is unfinished, and then
      finalize can fire, or raise when it cannot read the rows. */
  lemma Progress(s: State, env: Env) returns (e: Event)
    requires Inv(s) && !Over(s)
    ensures Enabled(s, e, env) && e != Coordinate(ChordFails)
    ensures Breakdown(e) ==> e == Coordinate(FinalizeCrashes) && !Readable(s.db.rows, env.parse)
    ensures s.coordinator.FanOut? ==>
              if !AllFinished(s.tasks) then e.Task?
              else e == Coordinate(if Readable(s.db.rows, env.parse) then Finalize(0) else FinalizeCrashes)
  {
    match s.coordinator
    case Starting => e := Coordinate(StartScan);
    case Launching => e := Coordinate(if s.engines == [] then RefuseScan else Enqueue);
    case ReportingRow(_) => e := Coordinate(ReportRowNow(true, 0));
    case ReportingStatus => e := Coordinate(ReportStatusNow(0));
    case _ =>
      if AllFinished(s.tasks) {
        e := Coordinate(if Readable(s.db.rows, env.parse) then Finalize(0) else FinalizeCrashes);
      } else {
        var i :| 0 <= i < |s.tasks| && !s.tasks[i].Finished?;
        e := Task(i, NextMove(s.tasks[i]));
      }
  }

  lemma {:induction false} WaitingWork(n: nat)
    ensures Work(seq(n, _ => Waiting)) == 6 * n
  {
    if n > 0 {
      assert seq(n, _ => Waiting)[..n - 1] == seq(n - 1, _ => Waiting);
      WaitingWork(n - 1);
    }
  }

  lemma {:induction false} RunKeepsJob(s: State, events: seq<Event>, env: Env)
    requires After(s, events, env).Some?
    ensures After(s, events, env).value.db.job.Some? <==> s.db.job.Some?
    ensures After(s, events, env).value.engines == s.engines
  {
    if events != [] {
      RunKeepsJob(s, events[..|events| - 1], env);
      StepKeepsJob(After(s, events[..|events| - 1], env).value, events[|events| - 1], env);
    }
  }

  lemma StepKeepsJob(s: State, e: Event, env: Env)
    requires Enabled(s, e, env)
    ensures Step(s, e, env).db.job.Some? <==> s.db.job.Some?
    ensures Step(s, e, env).db.job.Some? ==> Step(s, e, env).db.job.value.hasKey == s.db.job.value.hasKey
    ensures Step(s, e, env).engines == s.engines
  {
    match e
    case Task(i, move) =>
      TaskStepKeepsJob(Local(s.tasks[i], s.db, s.lost), s.engines[i], move);
    case Coordinate(_) =>
  }

  lemma TaskStepKeepsJob(l: Local, engine: string, e: TaskEvent)
    requires TaskEnabled(l.phase, e)
    ensures TaskStep(l, engine, e).db.job.Some? <==> l.db.job.Some?
    ensures l.db.job.Some? ==> TaskStep(l, engine, e).db.job.value.hasKey == l.db.job.value.hasKey
    ensures TaskStep(l, engine, e).db.usage == l.db.usage
  {
  }

  /** Every run of a stored job ends: it is no longer than six steps an engine
      and five for the coordinator, and one that can at most go on with a failing
      fan-in has left the job in a terminal status with a completion time. */
  lemma EveryRunTerminates(s: State, engines: seq<string>, hasKey: bool, events: seq<Event>, env: Env)
    requires Reached(s, engines, true, hasKey, events, env)
    ensures |events| <= 6 * |engines| + 5
    ensures (forall e :: Enabled(s, e, env) ==> e == Coordinate(ChordFails)) ==>
              s.db.job.Some? && Terminal(s.db.job.value.status) && s.db.job.value.completedAt.Some?
  {
    var start := Fresh(engines, true, hasKey);
    RunsAreBounded(start, events, env);
    WaitingWork(|engines|);
    assert start.tasks == seq(|engines|, _ => Waiting);
    ReachedInv(s, engines, true, hasKey, events, env);
    RunKeepsJob(start, events, env);
    if !Over(s) {
      var e := Progress(s, env);
    }
  }

  // --------------------------------------------------------------- fan-in

  /** Without a breakdown a stored job with engines never leaves the way from
      start to finalize. */
  predicate OnTrack(s: State) {
    s.coordinator.Starting? || s.coordinator.Launching? || s.coordinator.FanOut? || s.coordinator == Ended(true)
  }

  lemma {:induction false} RunStaysOnTrack(s: State, events: seq<Event>, env: Env)
    requires OnTrack(s) && s.db.job.Some? && s.engines != [] && After(s, events, env).Some?
    requires forall e | e in events :: !Breakdown(e)
    ensures OnTrack(After(s, events, env).value) && After(s, events, env).value.engines == s.engines
  {
    if events != [] {
      var init, last := events[..|events| - 1], events[|events| - 1];
      assert last in events;
      RunStaysOnTrack(s, init, env);
      RunKeepsJob(s, init, env);
    }
  }

  /** The fan-in: when nothing breaks down and the rows can be read, a run that
      can only go on by breaking down has been finalized. All its tasks have
      finished and its status is that of the rows. */
  lemma FanInCompletes(s: State, engines: seq<string>, hasKey: bool, events: seq<Event>, env: Env)
    requires Reached(s, engines, true, hasKey, events, env) && engines != []
    requires forall e | e in events :: !Breakdown(e)
    requires Readable(s.db.rows, env.parse)
    requires forall e :: Enabled(s, e, env) ==> Breakdown(e)
    ensures s.coordinator == Ended(true) && AllFinished(s.tasks)
    ensures s.db.job.Some? && s.db.job.value.status == FinalStatus(s.db.rows)
  {
    ReachedInv(s, engines, true, hasKey, events, env);
    RunStaysOnTrack(Fresh(engines, true, hasKey), events, env);
    if !Over(s) {
      var e := Progress(s, env);
    }
  }

  // ------------------------------------------------------------ stability

  lemma StepKeepsRow(s: State, e: Event, env: Env, engine: string)
    requires Inv(s) && Enabled(s, e, env) && Find(s.db.rows, engine).Some?
    ensures Find(Step(s, e, env).db.rows, engine).Some?
  {
    match e
    case Task(i, move) =>
      var l := Local(s.tasks[i], s.db, s.lost);
      TaskStepEffect(l, s.engines[i], move);
      TaskStepKeepsRow(l, TaskStep(l, s.engines[i], move), s.engines[i], engine);
    case Coordinate(Finalize(at)) =>
      if s.db.job.Some? {
        FindAfter(s.db.rows, env.parse, engine);
      }
    case Coordinate(ReportRowNow(landed, at)) =>
      if landed && s.db.job.Some? {
        var row := EngineRow(ORCHESTRATOR, "error",
                             StoredPayload(ErrorPayload(s.coordinator.message), ORCHESTRATOR, "error").value, at);
        FindUpsert(s.db.rows, row, engine);
      }
    case Coordinate(_) =>
  }

  lemma TaskStepKeepsRow(l: Local, l': Local, name: string, engine: string)
    requires LocalEffect(l, l', name) && Find(l.db.rows, engine).Some?
    ensures Find(l'.db.rows, engine).Some?
  {
    if row: EngineRow :| l'.db == l.db.(rows := Upsert(l.db.rows, row)) {
      FindUpsert(l.db.rows, row, engine);
    } else {
      assert l'.db.rows == l.db.rows;
    }
  }

  lemma {:induction false} RunKeepsRow(s: State, events: seq<Event>, env: Env, engine: string)
    requires Inv(s) && After(s, events, env).Some? && Find(s.db.rows, engine).Some?
    ensures Find(After(s, events, env).value.db.rows, engine).Some?
  {
    if events != [] {
      var init := events[..|events| - 1];
      RunKeepsRow(s, init, env, engine);
      RunKeepsInv(s, init, env);
      StepKeepsRow(After(s, init, env).value, events[|events| - 1], env, engine);
    }
  }

  lemma OrchestratorBlocksDone(s: State)
    requires Inv(s) && s.db.job.Some? && Find(s.db.rows, ORCHESTRATOR).Some?
    ensures s.db.job.value.status != DONE
  {
    FindMember(s.db.rows, ORCHESTRATOR);
    var row := Find(s.db.rows, ORCHESTRATOR).value;
    assert row in s.db.rows && !Succeeded(row);
  }

  /** Once a row is stored under the orchestrator's name, no continuation of the
      run ever shows the job as done. */
  lemma OrchestratorRowRulesOutDone(s: State, engines: seq<string>, hasKey: bool, events: seq<Event>,
                                    later: seq<Event>, env: Env)
    requires Reached(s, engines, true, hasKey, events, env)
    requires Find(s.db.rows, ORCHESTRATOR).Some?
    requires After(s, later, env).Some?
    ensures After(s, later, env).value.db.job.Some? ==> After(s, later, env).value.db.job.value.status != DONE
  {
    ReachedInv(s, engines, true, hasKey, events, env);
    RunKeepsInv(s, later, env);
    RunKeepsRow(s, later, env, ORCHESTRATOR);
    if After(s, later, env).value.db.job.Some? {
      OrchestratorBlocksDone(After(s, later, env).value);
    }
  }

  lemma StepKeepsTerminal(s: State, e: Event, env: Env)
    requires Inv(s) && Enabled(s, e, env) && s.db.job.Some? && Terminal(s.db.job.value.status)
    ensures Step(s, e, env).db.job.Some? && Terminal(Step(s, e, env).db.job.value.status)
  {
    match e
    case Task(i, move) =>
      var l := Local(s.tasks[i], s.db, s.lost);
      TaskStepEffect(l, s.engines[i], move);
    case Coordinate(_) =>
  }

  /** A job that reached a terminal status stays in one. */
  lemma {:induction false} TerminalIsStable(s: State, events: seq<Event>, env: Env)
    requires Inv(s) && s.db.job.Some? && Terminal(s.db.job.value.status) && After(s, events, env).Some?
    ensures var s' := After(s, events, env).value; s'.db.job.Some? && Terminal(s'.db.job.value.status)
  {
    if events != [] {
      var init := events[..|events| - 1];
      TerminalIsStable(s, init, env);
      RunKeepsInv(s, init, env);
      StepKeepsTerminal(After(s, init, env).value, events[|events| - 1], env);
    }
  }

  // ------------------------------------------------------- what done means

  /** Every dispatched engine has a success row and the orchestrator has none. */
  predicate CleanSweep(s: State) {
    && (forall i | 0 <= i < |s.engines| :: Find(s.db.rows, s.engines[i]).Some? && Succeeded(Find(s.db.rows, s.engines[i]).value))
    && Find(s.db.rows, ORCHESTRATOR).None?
  }

  lemma SweepMeansDone(s: State)
    requires Inv(s) && s.coordinator == Ended(true) && CleanSweep(s)
    ensures FinalStatus(s.db.rows) == DONE && s.lost == {}
  {
    forall r | r in s.db.rows ensures Succeeded(r) {
      MemberFound(s.db.rows, r);
      FindMember(s.db.rows, ORCHESTRATOR);
      assert r.engine in s.engines;
      var i :| 0 <= i < |s.engines| && s.engines[i] == r.engine;
    }
    FindMember(s.db.rows, s.engines[0]);
    var r := Find(s.db.rows, s.engines[0]).value;
    assert r in s.db.rows && Succeeded(r);
    forall e | e in s.engines ensures e !in s.lost {
      var i :| 0 <= i < |s.engines| && s.engines[i] == e;
      SweptEngineIsNotLost(s, i);
    }
  }

  lemma SweptEngineIsNotLost(s: State, i: nat)
    requires Inv(s) && s.coordinator == Ended(true) && CleanSweep(s) && i < |s.engines|
    ensures s.engines[i] !in s.lost
  {
  }

  lemma DoneMeansSweep(s: State)
    requires Inv(s) && s.coordinator == Ended(true) && FinalStatus(s.db.rows) == DONE && s.lost == {}
    ensures CleanSweep(s)
  {
    if Find(s.db.rows, ORCHESTRATOR).Some? {
      OrchestratorBlocksDone(s);
    }
    forall i | 0 <= i < |s.engines|
      ensures Find(s.db.rows, s.engines[i]).Some? && Succeeded(Find(s.db.rows, s.engines[i]).value)
    {
      assert TaskOk(s.tasks[i], s.db, s.lost, s.engines[i], s.dispatched);
      FindMember(s.db.rows, s.engines[i]);
    }
  }

  /** In every interleaving that finalize closes, all engines succeeded and the
      orchestrator reported nothing exactly when the job is done and no outcome
      was lost. With every report row and every disabled-engine row landing,
      `lost` is empty and "done" means just that. */
  lemma DoneExactlyWhenAllSucceeded(s: State, engines: seq<string>, hasKey: bool, events: seq<Event>, env: Env)
    requires Reached(s, engines, true, hasKey, events, env) && s.coordinator == Ended(true)
    ensures s.db.job.Some? && (CleanSweep(s) <==> s.db.job.value.status == DONE && s.lost == {})
  {
    ReachedInv(s, engines, true, hasKey, events, env);
    if CleanSweep(s) {
      SweepMeansDone(s);
    }
    if s.db.job.value.status == DONE && s.lost == {} {
      DoneMeansSweep(s);
    }
  }

  /** Events whose unretried writes land: nothing is lost. */
  predicate ReportsLand(e: Event) {
    e.Task? ==>
      match e.move
      case EngineDisabled(landed, _) => landed
      case ReportsRow(landed, _) => landed
      case _ => true
  }

  lemma {:induction false} NothingLost(s: State, events: seq<Event>, env: Env)
    requires s.db.job.Some? && s.lost == {} && After(s, events, env).Some?
    requires forall e | e in events :: ReportsLand(e)
    ensures After(s, events, env).value.lost == {}
  {
    if events != [] {
      var init, last := events[..|events| - 1], events[|events| - 1];
      assert last in events;
      NothingLost(s, init, env);
      RunKeepsJob(s, init, env);
    }
  }

  /** With every unretried write landing, a finalized job is done exactly when
      every dispatched engine has a success row and no error was dispatched. */
  lemma DoneIffAllSucceeded(s: State, engines: seq<string>, hasKey: bool, events: seq<Event>, env: Env)
    requires Reached(s, engines, true, hasKey, events, env) && s.coordinator == Ended(true)
    requires forall e | e in events :: ReportsLand(e)
    ensures s.db.job.Some? && (s.db.job.value.status == DONE <==> CleanSweep(s))
  {
    NothingLost(Fresh(engines, true, hasKey), events, env);
    DoneExactlyWhenAllSucceeded(s, engines, hasKey, events, env);
  }

  lemma AfterSnoc(s: State, events: seq<Event>, e: Event, env: Env)
    requires After(s, events, env).Some? && Enabled(After(s, events, env).value, e, env)
    ensures After(s, events + [e], env) == Some(Step(After(s, events, env).value, e, env))
  {
    assert (events + [e])[..|events|] == events;
  }

  /** A run up to the point where one of two engines reported and the other was
      found disabled, with its only write failing. */
  lemma OneRowLost(o: Outcome, env: Env) returns (events: seq<Event>, s: State)
    requires CanStore(Fresh(PAIR, true, true).db, OutcomePayload(o))
    ensures After(Fresh(PAIR, true, true), events, env) == Some(s)
    ensures s.coordinator.FanOut? && AllFinished(s.tasks) && s.db.job.Some?
    ensures s.db.rows == [OutcomeRow("clamav", o, 1)] && s.lost == {"yara"}
  {
    events, s := OneRowStored(o, env);
    events, s := Extend(Fresh(PAIR, true, true), events, s, Task(1, EngineDisabled(false, 2)), env);
  }

  /** One more event of a run. */
  lemma Extend(start: State, events: seq<Event>, s: State, e: Event, env: Env) returns (events': seq<Event>, s': State)
    requires After(start, events, env) == Some(s) && Enabled(s, e, env)
    ensures events' == events + [e] && s' == Step(s, e, env) && After(start, events', env) == Some(s')
  {
    AfterSnoc(start, events, e, env);
    events', s' := events + [e], Step(s, e, env);
  }

  /** A run up to the point where the first of two engines stored its result. */
  lemma OneRowStored(o: Outcome, env: Env) returns (events: seq<Event>, s: State)
    requires CanStore(Fresh(PAIR, true, true).db, OutcomePayload(o))
    ensures After(Fresh(PAIR, true, true), events, env) == Some(s)
    ensures s == State(PAIR, Db(Some(Job(RUNNING, None, true)), [OutcomeRow("clamav", o, 1)], QueuedUsage(true)),
                       [Finished, Waiting], FanOut, true, {})
  {
    var start := Fresh(PAIR, true, true);
    assert start.tasks == [Waiting, Waiting];
    events, s := Extend(start, [], start, Coordinate(StartScan), env);
    events, s := Extend(start, events, s, Coordinate(Enqueue), env);
    events, s := Extend(start, events, s, Task(0, EngineRan(o)), env);
    events, s := Extend(start, events, s, Task(0, Attempt(true, 1)), env);
  }

  const PAIR: seq<string> := ["clamav", "yara"]

  lemma PairProper()
    ensures ProperEngines(PAIR) && PAIR[0] == "clamav" && PAIR[1] == "yara"
  {
  }

  lemma MissingIsNoSweep(s: State)
    requires s.engines == PAIR && Find(s.db.rows, "yara").None?
    ensures !CleanSweep(s)
  {
    PairProper();
    assert s.engines[1] == "yara";
  }

  lemma SingleRowDone(row: EngineRow)
    requires Succeeded(row)
    ensures FinalStatus([row]) == DONE && Find([row], "yara") == (if row.engine == "yara" then Some(row) else None)
  {
  }

  /** Closing a job whose only row succeeded. */
  lemma CloseSingle(before: State, row: EngineRow, env: Env)
    requires before.coordinator.FanOut? && AllFinished(before.tasks) && before.db.job.Some?
    requires before.db.rows == [row] && row.engine == "clamav" && ReadableRow(row, env.parse) && Succeeded(row)
    ensures Enabled(before, Coordinate(Finalize(3)), env)
    ensures var s := Step(before, Coordinate(Finalize(3)), env);
            && s.coordinator == Ended(true) && s.db.job.Some? && s.db.job.value.status == DONE
            && Find(s.db.rows, "yara").None? && s.engines == before.engines
  {
    SingleRowDone(row);
    assert Readable(before.db.rows, env.parse);
    FindAfter(before.db.rows, env.parse, "yara");
  }

  /** A report that finds nothing. */
  function CleanReport(env: Env): Outcome {
    Returned(Mapping(NormalizeEngineResult(
      Report("clamav", Some(false), None, None, None, None, Num(1.0), None, None, None), env.parse)))
  }

  lemma CleanReportSucceeds(env: Env)
    ensures OutcomeStatus(CleanReport(env)) == "success"
    ensures ReadableRow(OutcomeRow("clamav", CleanReport(env), 1), env.parse)
  {
    var report := Report("clamav", Some(false), None, None, None, None, Num(1.0), None, None, None);
    LowerFixed();
    NormalizedVotes(report, env.parse);
    OkIsSuccess(NormalizeEngineResult(report, env.parse));
    ReportsArePresentable(report, env.parse);
    StoredRowIsReadable("clamav", CleanReport(env), 1, env.parse);
  }

  /** The proviso is needed: when a disabled engine's only write is lost,
      finalize can close the job as done although that engine left no trace. */
  lemma DoneCanHideAnEngine(env: Env) returns (events: seq<Event>, s: State)
    ensures Reached(s, PAIR, true, true, events, env)
    ensures s.coordinator == Ended(true) && s.db.job.Some? && s.db.job.value.status == DONE
    ensures Find(s.db.rows, "yara").None? && !CleanSweep(s)
  {
    var start, o := Fresh(PAIR, true, true), CleanReport(env);
    PairProper();
    CleanReportSucceeds(env);
    var before;
    events, before := OneRowLost(o, env);
    CloseSingle(before, OutcomeRow("clamav", o, 1), env);
    RunKeepsJob(start, events, env);
    AfterSnoc(start, events, Coordinate(Finalize(3)), env);
    s := Step(before, Coordinate(Finalize(3)), env);
    events := events + [Coordinate(Finalize(3))];
    MissingIsNoSweep(s);
  }

  // --------------------------------------------------------- the usage row

  /** The usage row: queued until finalize commits, and then the closing status
      with the verdict that the stored rows still give. */
  ghost predicate UsageOk(s: State, hasKey: bool, env: Env) {
    s.db.job.Some? ==>
      && s.db.job.value.hasKey == hasKey
      && (s.coordinator == Ended(true) ==> Readable(s.db.rows, env.parse))
      && if s.coordinator == Ended(true) && hasKey then
           s.db.usage == Some(Usage(s.db.job.value.status,
                                       Some(Summarize(s.db.job.value.status, s.db.rows, env.weights, env.parse).verdict)))
         else s.db.usage == QueuedUsage(hasKey)
  }

  lemma FinalizeWritesUsage(s: State, at: int, hasKey: bool, env: Env)
    requires Inv(s) && UsageOk(s, hasKey, env) && CoordinatorEnabled(s, CoordinatorEvent.Finalize(at), env)
    ensures UsageOk(CoordinatorStep(s, CoordinatorEvent.Finalize(at), env), hasKey, env)
  {
    if s.db.job.Some? {
      var status := FinalStatus(s.db.rows);
      SameFinalStatus(s.db.rows, env.parse);
      ResummaryAgrees(status, s.db.rows, RowsAfter(s.db.rows, env.parse), env.weights, env.parse);
    }
  }

  lemma StepKeepsUsage(s: State, e: Event, hasKey: bool, env: Env)
    requires Inv(s) && UsageOk(s, hasKey, env) && Enabled(s, e, env)
    ensures UsageOk(Step(s, e, env), hasKey, env)
  {
    match e
    case Task(i, move) =>
      NotYetFinal(s, i);
      TaskStepKeepsJob(Local(s.tasks[i], s.db, s.lost), s.engines[i], move);
    case Coordinate(Finalize(at)) => FinalizeWritesUsage(s, at, hasKey, env);
    case Coordinate(_) =>
  }

  lemma {:induction false} RunKeepsUsage(s: State, events: seq<Event>, hasKey: bool, env: Env)
    requires Inv(s) && UsageOk(s, hasKey, env) && After(s, events, env).Some?
    ensures UsageOk(After(s, events, env).value, hasKey, env)
  {
    if events != [] {
      var init := events[..|events| - 1];
      RunKeepsUsage(s, init, hasKey, env);
      RunKeepsInv(s, init, env);
      StepKeepsUsage(After(s, init, env).value, events[|events| - 1], hasKey, env);
    }
  }

  /** A finalized job has rows that can be read, and read again. */
  lemma FinalizedIsReadable(s: State, engines: seq<string>, hasKey: bool, events: seq<Event>, env: Env)
    requires Reached(s, engines, true, hasKey, events, env) && s.coordinator == Ended(true)
    ensures s.db.job.Some? && Readable(s.db.rows, env.parse)
  {
    var start := Fresh(engines, true, hasKey);
    FreshInv(engines, true, hasKey);
    RunKeepsJob(start, events, env);
    RunKeepsUsage(start, events, hasKey, env);
  }

  /** The usage row shows the job's closing status and the verdict that
      summarising the stored rows again gives, in any order, once finalize has
      committed; until then, and for good when the job ended by a dispatch
      error, it still says queued. */
  lemma UsageFollowsFinalize(s: State, engines: seq<string>, events: seq<Event>, env: Env, later: seq<EngineRow>)
    requires Reached(s, engines, true, true, events, env)
    requires multiset(later) == multiset(s.db.rows)
    ensures s.db.job.Some?
    ensures s.coordinator == Ended(true) ==>
              && Readable(later, env.parse)
              && s.db.usage == Some(Usage(s.db.job.value.status,
                                          Some(Summarize(s.db.job.value.status, later, env.weights, env.parse).verdict)))
    ensures s.coordinator != Ended(true) ==> s.db.usage == Some(Usage("queued", None))
  {
    var start := Fresh(engines, true, true);
    ReachedInv(s, engines, true, true, events, env);
    FreshInv(engines, true, true);
    RunKeepsJob(start, events, env);
    RunKeepsUsage(start, events, true, env);
    if s.coordinator == Ended(true) {
      SummaryPermutation(s.db.job.value.status, s.db.rows, later, env.weights, env.parse);
    }
  }
}
