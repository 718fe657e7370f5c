/** Status and verdict of a finished job: where they agree
    (app/services/orchestrator/dispatcher.py:166-180). */
module StatusVerdict {
  import opened Payloads
  import opened Results
  import opened Summary
  import opened Dispatcher
  import opened Tasks
  import opened ScanProtocol
  import opened ScanOutcomes
  import Voting

  /** Some row will vote once serialised. */
  ghost predicate SomeVote(rows: seq<EngineRow>, parse: Parser) {
    exists r :: r in rows && IsOk(Serialized(r, parse))
  }

  ghost predicate SomeSuccess(rows: seq<EngineRow>) { exists r :: r in rows && Succeeded(r) }

  /** Some stored payload says ok itself. */
  ghost predicate SomeOkPayload(rows: seq<EngineRow>) { exists r :: r in rows && IsOk(r.result) }

  lemma VotesRead(rows: seq<EngineRow>, parse: Parser)
    requires Readable(rows, parse)
    ensures SomeOk(ReadRows(rows, parse)) <==> SomeVote(rows, parse)
  {
    var results := ReadRows(rows, parse);
    if d :| d in results && IsOk(d) {
      var i :| 0 <= i < |results| && results[i] == d;
      assert rows[i] in rows;
    }
    if r :| r in rows && IsOk(Serialized(r, parse)) {
      var i :| 0 <= i < |rows| && rows[i] == r;
      assert results[i] in results;
    }
  }

  lemma VerdictByVotes(status: string, rows: seq<EngineRow>, weights: Weights, parse: Parser)
    requires Readable(rows, parse) && rows != []
    ensures var verdict := Summarize(status, rows, weights, parse).verdict;
            && (verdict == "error" <==> !SomeVote(rows, parse))
            && (verdict in {"malicious", "suspicious", "clean"} <==> SomeVote(rows, parse))
  {
    VotesRead(rows, parse);
    Voting.VerdictKinds(ReadRows(rows, parse), weights);
  }

  lemma FailedByRows(rows: seq<EngineRow>)
    ensures FinalStatus(rows) == FAILED <==> !SomeSuccess(rows)
  {
    if rows != [] {
      assert rows[0] in rows;
    }
  }

  // ------------------------------------------------- rows over a whole run

  /** A stored row that votes succeeded; under `strict` also the other way. */
  predicate Fits(row: EngineRow, strict: bool) {
    && "status" in row.result
    && (IsOk(row.result) ==> Succeeded(row))
    && (strict && Succeeded(row) ==> IsOk(row.result))
  }

  predicate AllFit(rows: seq<EngineRow>, strict: bool) { forall r | r in rows :: Fits(r, strict) }

  predicate FitState(s: State, strict: bool) {
    && AllFit(s.db.rows, strict)
    && (strict ==> forall i | 0 <= i < |s.tasks| && s.tasks[i].Persisting? :: Sincere(s.tasks[i].outcome))
  }

  /** The payload an engine hands back is sincere. */
  predicate SincereEvent(e: Event) { e.Task? && e.move.EngineRan? ==> Sincere(e.move.outcome) }

  lemma FitAfter(rows: seq<EngineRow>, strict: bool, parse: Parser)
    requires AllFit(rows, strict)
    ensures AllFit(RowsAfter(rows, parse), strict)
  {
    var after := RowsAfter(rows, parse);
    forall r | r in after ensures Fits(r, strict) {
      var i :| 0 <= i < |after| && after[i] == r;
      assert rows[i] in rows;
      StatusSurvives(rows[i], parse);
      assert "status" in r.result;
    }
  }

  lemma OutcomeFits(rows: seq<EngineRow>, engine: string, o: Outcome, at: int, strict: bool, parse: Parser)
    requires AllFit(rows, strict) && (strict ==> Sincere(o))
    requires StoredPayload(OutcomePayload(o), engine, OutcomeStatus(o)).Some?
    ensures AllFit(Upsert(rows, OutcomeRow(engine, o, at)), strict)
  {
    StoredRowIsFaithful(engine, o, at, parse);
    UpsertMembers(rows, OutcomeRow(engine, o, at));
  }

  /** An error row is the row of an engine that failed with that message. */
  lemma ErrorFits(rows: seq<EngineRow>, engine: string, message: string, at: int, strict: bool, parse: Parser)
    requires AllFit(rows, strict)
    ensures var row := EngineRow(engine, "error", StoredPayload(ErrorPayload(message), engine, "error").value, at);
            AllFit(Upsert(rows, row), strict)
  {
    OutcomeFits(rows, engine, Failed(message), at, strict, parse);
  }

  lemma TaskStepFits(l: Local, engine: string, e: TaskEvent, strict: bool, parse: Parser)
    requires TaskEnabled(l.phase, e) && AllFit(l.db.rows, strict)
    requires strict && l.phase.Persisting? ==> Sincere(l.phase.outcome)
    requires strict && e.EngineRan? ==> Sincere(e.outcome)
    ensures var l' := TaskStep(l, engine, e);
            AllFit(l'.db.rows, strict) && (strict && l'.phase.Persisting? ==> Sincere(l'.phase.outcome))
  {
    match e
    case EngineDisabled(landed, at) => ErrorFits(l.db.rows, engine, DISABLED, at, strict, parse);
    case Attempt(landed, at) =>
      if CanStore(l.db, OutcomePayload(l.phase.outcome)) {
        OutcomeFits(l.db.rows, engine, l.phase.outcome, at, strict, parse);
      }
    case ReportsRow(landed, at) => ErrorFits(l.db.rows, ORCHESTRATOR, l.phase.message, at, strict, parse);
    case _ =>
  }

  lemma CoordinatorFits(s: State, e: CoordinatorEvent, strict: bool, env: Env)
    requires FitState(s, strict) && CoordinatorEnabled(s, e, env)
    ensures FitState(CoordinatorStep(s, e, env), strict)
  {
    match e
    case Finalize(at) => FitAfter(s.db.rows, strict, env.parse);
    case ReportRowNow(landed, at) => ErrorFits(s.db.rows, ORCHESTRATOR, s.coordinator.message, at, strict, env.parse);
    case _ => assert CoordinatorStep(s, e, env).db.rows == s.db.rows;
  }

  lemma {:induction false} RunFits(s: State, events: seq<Event>, strict: bool, env: Env)
    requires FitState(s, strict) && After(s, events, env).Some?
    requires strict ==> forall e | e in events :: SincereEvent(e)
    ensures FitState(After(s, events, env).value, strict)
  {
    if events != [] {
      var init, last := events[..|events| - 1], events[|events| - 1];
      assert last in events;
      RunFits(s, init, strict, env);
      var mid := After(s, init, env).value;
      match last
      case Task(i, move) =>
        TaskStepFits(Local(mid.tasks[i], mid.db, mid.lost), mid.engines[i], move, strict, env.parse);
      case Coordinate(step) => CoordinatorFits(mid, step, strict, env);
    }
  }

  lemma FitVotes(rows: seq<EngineRow>, strict: bool, parse: Parser)
    requires AllFit(rows, strict)
    ensures SomeVote(rows, parse) <==> SomeOkPayload(rows)
    ensures SomeOkPayload(rows) ==> SomeSuccess(rows)
    ensures strict ==> (SomeSuccess(rows) <==> SomeOkPayload(rows))
  {
    forall r | r in rows
      ensures IsOk(Serialized(r, parse)) <==> IsOk(r.result)
    {
      StatusSurvives(r, parse);
    }
  }

  // --------------------------------------------------------- finished jobs

  /** Where a finalized job ends: its status, and what its verdict says. */
  lemma FinalizedFits(s: State, engines: seq<string>, hasKey: bool, events: seq<Event>, strict: bool, env: Env)
    requires Reached(s, engines, true, hasKey, events, env) && s.coordinator == Ended(true)
    requires strict ==> forall e | e in events :: SincereEvent(e)
    ensures s.db.job.Some? && s.db.job.value.status == FinalStatus(s.db.rows)
    ensures Readable(s.db.rows, env.parse) && AllFit(s.db.rows, strict)
  {
    ReachedInv(s, engines, true, hasKey, events, env);
    FinalizedIsReadable(s, engines, hasKey, events, env);
    RunFits(Fresh(engines, true, hasKey), events, strict, env);
  }

  /** In every interleaving and for payloads of every kind, status and verdict of
      a finalized job with rows disagree on failure iff some row is stored as a
      success but no stored payload says ok. */
  lemma StatusVerdictAgreement(s: State, engines: seq<string>, hasKey: bool, events: seq<Event>, env: Env)
    requires Reached(s, engines, true, hasKey, events, env) && s.coordinator == Ended(true) && s.db.rows != []
    ensures s.db.job.Some? && Readable(s.db.rows, env.parse)
    ensures var verdict := Summarize(s.db.job.value.status, s.db.rows, env.weights, env.parse).verdict;
            !(s.db.job.value.status == FAILED <==> verdict == "error")
            <==> SomeSuccess(s.db.rows) && !SomeOkPayload(s.db.rows)
  {
    FinalizedFits(s, engines, hasKey, events, false, env);
    FitVotes(s.db.rows, false, env.parse);
    VerdictByVotes(s.db.job.value.status, s.db.rows, env.weights, env.parse);
    FailedByRows(s.db.rows);
  }

  /** For payloads of every kind, a real verdict rules out the status "error". */
  lemma RealVerdictRulesOutError(s: State, engines: seq<string>, hasKey: bool, events: seq<Event>, env: Env)
    requires Reached(s, engines, true, hasKey, events, env) && s.coordinator == Ended(true) && s.db.rows != []
    ensures s.db.job.Some? && Readable(s.db.rows, env.parse)
    ensures Summarize(s.db.job.value.status, s.db.rows, env.weights, env.parse).verdict in {"malicious", "suspicious", "clean"}
            ==> s.db.job.value.status in {DONE, DONE_WITH_ERRORS}
  {
    FinalizedFits(s, engines, hasKey, events, false, env);
    FitVotes(s.db.rows, false, env.parse);
    VerdictByVotes(s.db.job.value.status, s.db.rows, env.weights, env.parse);
    FailedByRows(s.db.rows);
  }

  /** When every engine hands back a sincere payload or raises, status and
      verdict agree: "error" on both sides or on neither, and a real verdict
      exactly for a done job. */
  lemma StatusAndVerdictAgree(s: State, engines: seq<string>, hasKey: bool, events: seq<Event>, env: Env)
    requires Reached(s, engines, true, hasKey, events, env) && s.coordinator == Ended(true) && s.db.rows != []
    requires forall e | e in events :: SincereEvent(e)
    ensures s.db.job.Some? && Readable(s.db.rows, env.parse)
    ensures var verdict := Summarize(s.db.job.value.status, s.db.rows, env.weights, env.parse).verdict;
            && (s.db.job.value.status == FAILED <==> verdict == "error")
            && (s.db.job.value.status in {DONE, DONE_WITH_ERRORS} <==> verdict in {"malicious", "suspicious", "clean"})
  {
    FinalizedFits(s, engines, hasKey, events, true, env);
    FitVotes(s.db.rows, true, env.parse);
    VerdictByVotes(s.db.job.value.status, s.db.rows, env.weights, env.parse);
    FailedByRows(s.db.rows);
  }

  // ------------------------------------------------------- readable rows

  predicate PresentableEvent(e: Event, parse: Parser) {
    e.Task? && e.move.EngineRan? ==> Presentable(e.move.outcome, parse)
  }

  predicate ReadableState(s: State, parse: Parser) {
    && (forall i | 0 <= i < |s.engines| :: s.engines[i] != "")
    && Readable(s.db.rows, parse)
    && forall i | 0 <= i < |s.tasks| && s.tasks[i].Persisting? :: Presentable(s.tasks[i].outcome, parse)
  }

  lemma OutcomeReadable(rows: seq<EngineRow>, engine: string, o: Outcome, at: int, parse: Parser)
    requires engine != "" && Readable(rows, parse) && Presentable(o, parse)
    requires StoredPayload(OutcomePayload(o), engine, OutcomeStatus(o)).Some?
    ensures Readable(Upsert(rows, OutcomeRow(engine, o, at)), parse)
  {
    StoredRowIsReadable(engine, o, at, parse);
    UpsertMembers(rows, OutcomeRow(engine, o, at));
  }

  lemma ErrorReadable(rows: seq<EngineRow>, engine: string, message: string, at: int, parse: Parser)
    requires engine != "" && Readable(rows, parse)
    ensures var row := EngineRow(engine, "error", StoredPayload(ErrorPayload(message), engine, "error").value, at);
            Readable(Upsert(rows, row), parse)
  {
    OutcomeReadable(rows, engine, Failed(message), at, parse);
  }

  lemma TaskStepReadable(l: Local, engine: string, e: TaskEvent, parse: Parser)
    requires TaskEnabled(l.phase, e) && engine != "" && Readable(l.db.rows, parse)
    requires l.phase.Persisting? ==> Presentable(l.phase.outcome, parse)
    requires e.EngineRan? ==> Presentable(e.outcome, parse)
    ensures var l' := TaskStep(l, engine, e);
            Readable(l'.db.rows, parse) && (l'.phase.Persisting? ==> Presentable(l'.phase.outcome, parse))
  {
    match e
    case EngineDisabled(landed, at) => ErrorReadable(l.db.rows, engine, DISABLED, at, parse);
    case Attempt(landed, at) =>
      if CanStore(l.db, OutcomePayload(l.phase.outcome)) {
        OutcomeReadable(l.db.rows, engine, l.phase.outcome, at, parse);
      }
    case ReportsRow(landed, at) => ErrorReadable(l.db.rows, ORCHESTRATOR, l.phase.message, at, parse);
    case _ =>
  }

  lemma CoordinatorReadable(s: State, e: CoordinatorEvent, env: Env)
    requires ReadableState(s, env.parse) && CoordinatorEnabled(s, e, env)
    ensures ReadableState(CoordinatorStep(s, e, env), env.parse)
  {
    match e
    case StartScan => UnsentReadable(s, {}, env.parse);
    case EnqueueFails(sent) => UnsentReadable(s, sent, env.parse);
    case Finalize(at) => StillReadable(s.db.rows, env);
    case ReportRowNow(landed, at) => ErrorReadable(s.db.rows, ORCHESTRATOR, s.coordinator.message, at, env.parse);
    case _ =>
  }

  lemma StillReadable(rows: seq<EngineRow>, env: Env)
    requires Readable(rows, env.parse)
    ensures Readable(RowsAfter(rows, env.parse), env.parse)
  {
    AfterReadsTheSame(rows, env.parse);
  }

  lemma UnsentReadable(s: State, sent: set<nat>, parse: Parser)
    requires ReadableState(s, parse)
    ensures ReadableState(s.(tasks := Unsent(s.tasks, sent)), parse)
  {
  }

  lemma {:induction false} RunReadable(s: State, events: seq<Event>, env: Env)
    requires ReadableState(s, env.parse) && After(s, events, env).Some?
    requires forall e | e in events :: PresentableEvent(e, env.parse)
    ensures ReadableState(After(s, events, env).value, env.parse)
  {
    if events != [] {
      var init, last := events[..|events| - 1], events[|events| - 1];
      assert last in events;
      RunReadable(s, init, env);
      var mid := After(s, init, env).value;
      match last
      case Task(i, move) =>
        TaskStepReadable(Local(mid.tasks[i], mid.db, mid.lost), mid.engines[i], move, env.parse);
      case Coordinate(step) => CoordinatorReadable(mid, step, env);
    }
  }

  /** With presentable payloads alone, as normalized reports are, the rows can
      always be read: a run that nothing breaks ends finalized. */
  lemma PresentableRunsFinalize(s: State, engines: seq<string>, hasKey: bool, events: seq<Event>, env: Env)
    requires Reached(s, engines, true, hasKey, events, env) && engines != []
    requires forall e | e in events :: !Breakdown(e) && PresentableEvent(e, env.parse)
    requires forall e :: Enabled(s, e, env) ==> Breakdown(e)
    ensures s.coordinator == Ended(true) && AllFinished(s.tasks)
    ensures s.db.job.Some? && s.db.job.value.status == FinalStatus(s.db.rows)
  {
    RunReadable(Fresh(engines, true, hasKey), events, env);
    FanInCompletes(s, engines, hasKey, events, env);
  }
}
