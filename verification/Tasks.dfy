/** One engine's run and the persistence of its result (app/workers/tasks.py). */
module Tasks {
  import opened Strings
  import opened Payloads
  import opened Results
  import opened Summary
  import opened Dispatcher
  import opened Normalize

  const PERSISTENCE_RETRIES := 3

  function NormalizeTaskStatus(payload: Payload, fallback: string): string {
    if payload.NotMapping? then fallback
    else
      var status := Get(payload.fields, "status");
      var s := if status.Str? then Strip(Lower(status.s)) else "";
      if s in {"error", "failed", "failure"} then "error"
      else if s in {"timeout", "timed_out"} then "timeout"
      else if s in {"ok", "success"} then "success"
      else if Truthy(Get(payload.fields, "error")) then "error"
      else fallback
  }

  /** How the engine call ended. */
  datatype Outcome =
    | Returned(payload: Payload)
    | ConnectionRetry(message: string)
    | SoftTimeLimit(seconds: int)
    | Failed(message: string)

  function OutcomeStatus(o: Outcome): string {
    match o
    case Returned(payload) => NormalizeTaskStatus(payload, "success")
    case ConnectionRetry(_) => "error"
    case SoftTimeLimit(_) => "timeout"
    case Failed(_) => "error"
  }

  function OutcomePayload(o: Outcome): Payload {
    match o
    case Returned(payload) => payload
    case ConnectionRetry(message) => Mapping(map["error" := Str(message), "connection_retry" := Bool(true)])
    case SoftTimeLimit(seconds) =>
      Mapping(map["error" := Str("Engine exceeded soft time limit"), "timeout_seconds" := Num(seconds as real)])
    case Failed(message) => Mapping(map["error" := Str(message)])
  }

  /** A row that succeeded exactly when its payload will vote. */
  predicate Faithful(row: EngineRow, parse: Parser) { Succeeded(row) <==> IsOk(Serialized(row, parse)) }

  /** A payload that is stored as a success only if it says "ok" itself, in any
      letter case but without blanks around it. */
  predicate Sincere(o: Outcome) {
    OutcomeStatus(o) == "success" ==> o.payload.Mapping? && IsOk(o.payload.fields)
  }

  /** The effect of an engine's run on the job: one result row, or a dispatch
      error once every attempt to store it has failed. */
  function AfterPersist(db: Db, engine: string, o: Outcome, at: int, landed: bool, reportLands: bool): Db {
    if landed && CanStore(db, OutcomePayload(o)) then
      Recorded(db, engine, OutcomeStatus(o), OutcomePayload(o), at)
    else
      Marked(DispatchErrorRow(db, "Failed to persist engine result for " + engine, at, reportLands), FAILED, Some(at))
  }

  /** The retry loop: up to three attempts, stopping at the first that lands. */
  method Persist(store: JobStore, engine: string, o: Outcome, at: int, lands: seq<bool>) returns (persisted: bool)
    requires |lands| == PERSISTENCE_RETRIES
    modifies store
    ensures persisted <==> CanStore(old(store.State()), OutcomePayload(o)) && true in lands
    ensures store.State() == if persisted then Recorded(old(store.State()), engine, OutcomeStatus(o), OutcomePayload(o), at)
                             else old(store.State())
  {
    persisted := false;
    var attempt := 0;
    while attempt < PERSISTENCE_RETRIES
      invariant 0 <= attempt <= PERSISTENCE_RETRIES && !persisted
      invariant store.State() == old(store.State())
      invariant CanStore(old(store.State()), OutcomePayload(o)) ==> true !in lands[..attempt]
    {
      var r := store.RecordEngineResult(engine, OutcomeStatus(o), OutcomePayload(o), at, lands[attempt]);
      if r.Stored? {
        persisted := true;
        break;
      }
      attempt := attempt + 1;
    }
    assert lands[..PERSISTENCE_RETRIES] == lands;
  }

  /** One engine run from start to end. */
  method RunEngineTask(store: JobStore, engine: string, configured: bool, filePath: string, o: Outcome, at: int,
                       lands: seq<bool>, reportLands: bool)
    returns (status: string)
    requires |lands| == PERSISTENCE_RETRIES
    modifies store
    ensures store.State() ==
              if !configured then
                var message := ErrorPayload("Engine is not configured or has been disabled");
                if CanStore(old(store.State()), message) && lands[0] then Recorded(old(store.State()), engine, "error", message, at)
                else old(store.State())
              else if filePath == "" then
                Marked(DispatchErrorRow(old(store.State()), "Engine task missing file location", at, reportLands), FAILED, Some(at))
              else AfterPersist(old(store.State()), engine, o, at, true in lands, reportLands)
    ensures status == if configured && filePath != "" then OutcomeStatus(o) else "error"
  {
    if !configured {
      var _ := store.RecordEngineResult(engine, "error", ErrorPayload("Engine is not configured or has been disabled"), at, lands[0]);
      return "error";
    }
    if filePath == "" {
      store.RecordDispatchError("Engine task missing file location", at, reportLands);
      return "error";
    }
    var persisted := Persist(store, engine, o, at, lands);
    if !persisted {
      store.RecordDispatchError("Failed to persist engine result for " + engine, at, reportLands);
    }
    status := OutcomeStatus(o);
  }

  // ------------------------------------------------------ faithful rows

  /** The row an outcome leaves when it is stored. */
  function OutcomeRow(engine: string, o: Outcome, at: int): EngineRow
    requires StoredPayload(OutcomePayload(o), engine, OutcomeStatus(o)).Some?
  {
    EngineRow(engine, OutcomeStatus(o), StoredPayload(OutcomePayload(o), engine, OutcomeStatus(o)).value, at)
  }

  lemma PlainStatus()
    ensures Strip(Lower("ok")) == "ok" && Lower("error") == "error" && Lower("timeout") == "timeout"
    ensures Lower("success")[0] == 's'
  {
  }

  /** An outcome that reports an ok status is stored as a success. */
  lemma OkIsSuccess(fields: Dict)
    requires IsOk(fields)
    ensures NormalizeTaskStatus(Mapping(fields), "success") == "success"
  {
    PlainStatus();
    var status := Get(fields, "status");
    assert status.Str? && Lower(status.s) == "ok";
  }

  /** For every payload that can be stored, of whatever shape: a row that votes
      succeeded, and the row succeeds exactly when it votes iff the payload is
      sincere. */
  lemma StoredRowIsFaithful(engine: string, o: Outcome, at: int, parse: Parser)
    requires StoredPayload(OutcomePayload(o), engine, OutcomeStatus(o)).Some?
    ensures var row := OutcomeRow(engine, o, at);
            && "status" in row.result
            && (IsOk(Serialized(row, parse)) <==> IsOk(row.result))
            && (IsOk(row.result) ==> Succeeded(row))
            && (Faithful(row, parse) <==> Sincere(o))
  {
    var row := OutcomeRow(engine, o, at);
    StatusSurvives(row, parse);
    StoredStatus(engine, o);
    PlainStatus();
    if o.Returned? && o.payload.Mapping? && IsOk(o.payload.fields) {
      OkIsSuccess(o.payload.fields);
    }
  }

  /** A stored payload keeps a status it came with; otherwise it gets the row's,
      which is never "ok". */
  lemma StoredStatus(engine: string, o: Outcome)
    requires StoredPayload(OutcomePayload(o), engine, OutcomeStatus(o)).Some?
    ensures var d := StoredPayload(OutcomePayload(o), engine, OutcomeStatus(o)).value;
            && "status" in d
            && (IsOk(d) <==> o.Returned? && o.payload.Mapping? && IsOk(o.payload.fields))
  {
    PlainStatus();
  }

  lemma StatusSurvives(row: EngineRow, parse: Parser)
    requires "status" in row.result
    ensures Get(Serialized(row, parse), "status") == row.result["status"]
  {
    var p, d := WithDefaults(row), Serialized(row, parse);
    assert Get(p, "status") == row.result["status"];
    assert Get(d, "status") == Get(p, "status");
  }

  /** Normalized reports and raised outcomes are sincere. */
  lemma ReportsAreSincere(report: Report, parse: Parser)
    ensures Sincere(Returned(Mapping(NormalizeEngineResult(report, parse))))
    ensures OutcomeStatus(Returned(Mapping(NormalizeEngineResult(report, parse)))) in {"success", "error"}
  {
    NormalizedVotes(report, parse);
    var d := NormalizeEngineResult(report, parse);
    PlainStatus();
    assert Strip(Lower("error")) == "error";
    assert Get(d, "status") == d["status"];
  }

  lemma RaisedOutcomesAreSincere(o: Outcome)
    requires !o.Returned?
    ensures Sincere(o)
  {
  }

  /** Payloads that are and that are not: one without a status succeeds unless
      it reports an error, and "success" or a padded "ok" never votes. */
  lemma SincereExamples()
    ensures !Sincere(Returned(Mapping(map["detected" := Bool(true)])))
    ensures !Sincere(Returned(Mapping(map["status" := Str("success")])))
    ensures !Sincere(Returned(Mapping(map["status" := Str("ok ")])))
    ensures Sincere(Returned(Mapping(map["error" := Str("x")])))
    ensures Sincere(Returned(Mapping(map["status" := Str("OK")])))
  {
    assert Lower("success") == "success" && Strip("success") == "success";
    assert Lower("ok ") == "ok " && TrimLeft("ok ") == "ok " && TrimRight("ok ") == "ok";
    assert Lower("OK") == "ok";
  }

  /** A payload the aggregator can read: its status and its signature are text or
      falsy, its engine and its severity no containers, and if it says ok its
      verdict is text or falsy and its confidence a number or numeric text. */
  predicate Presentable(o: Outcome, parse: Parser) {
    o.Returned? && o.payload.Mapping? ==>
      var d := o.payload.fields;
      TextLike(Get(d, "status")) && TextLike(Get(d, "signature")) &&
      !Get(d, "engine").Container? && !Get(d, "severity").Container? &&
      (IsOk(d) ==> TextLike(Get(d, "verdict")) && NumberLike(Get(d, "confidence"), parse))
  }

  /** What serialisation shows the aggregator of a stored payload. */
  lemma SerializedFields(row: EngineRow, parse: Parser)
    requires row.engine != "" && "status" in row.result && "engine" in row.result
    ensures var d := Serialized(row, parse);
            && EngineField(d) == Str(row.engine)
            && Get(d, "status") == row.result["status"]
            && Get(d, "engine") == row.result["engine"]
            && Get(d, "verdict") == Get(row.result, "verdict")
            && Get(d, "signature") == Get(row.result, "signature")
            && Get(d, "confidence") == (if "confidence" in row.result then row.result["confidence"] else Num(0.0))
  {
    DefaultedFields(row);
    var p, d := WithDefaults(row), Serialized(row, parse);
    assert forall name | name !in {"severity", "severity_score", "scanned_at"} :: Get(d, name) == Get(p, name);
  }

  lemma DefaultedFields(row: EngineRow)
    requires row.engine != "" && "status" in row.result && "engine" in row.result
    ensures var p := WithDefaults(row);
            && Get(p, "engine_key") == Str(row.engine)
            && Get(p, "status") == row.result["status"]
            && Get(p, "engine") == row.result["engine"]
            && Get(p, "verdict") == Get(row.result, "verdict")
            && Get(p, "signature") == Get(row.result, "signature")
            && Get(p, "confidence") == (if "confidence" in row.result then row.result["confidence"] else Num(0.0))
  {
  }

  /** What storing leaves of the fields an outcome came with. */
  lemma StoredFields(engine: string, o: Outcome)
    requires StoredPayload(OutcomePayload(o), engine, OutcomeStatus(o)).Some?
    ensures var d := StoredPayload(OutcomePayload(o), engine, OutcomeStatus(o)).value;
            var fields := if o.Returned? && o.payload.Mapping? then o.payload.fields else map[];
            && "engine" in d && (d["engine"].Container? <==> Get(fields, "engine").Container?)
            && (TextLike(Get(d, "status")) <==> TextLike(Get(fields, "status")))
            && Get(d, "signature") == Get(fields, "signature") && Get(d, "severity") == Get(fields, "severity")
            && Get(d, "verdict") == Get(fields, "verdict") && Get(d, "confidence") == Get(fields, "confidence")
  {
  }

  /** The row of an outcome can be read iff the payload is presentable. */
  lemma StoredRowIsReadable(engine: string, o: Outcome, at: int, parse: Parser)
    requires engine != "" && StoredPayload(OutcomePayload(o), engine, OutcomeStatus(o)).Some?
    ensures ReadableRow(OutcomeRow(engine, o, at), parse) <==> Presentable(o, parse)
  {
    StoredStatus(engine, o);
    StoredFields(engine, o);
    SerializedFields(OutcomeRow(engine, o, at), parse);
  }

  lemma ReportsArePresentable(report: Report, parse: Parser)
    ensures Presentable(Returned(Mapping(NormalizeEngineResult(report, parse))), parse)
  {
    NormalizedNumbers(report, parse);
  }

  // ------------------------------------------------------ statuses of outcomes

  /** The status of a payload, in any letter case and padded with blanks: three
      words mean an error, two a timeout and two a success; with any other text
      or none, a reported error decides, and otherwise the fallback. */
  lemma TaskStatusMeaning(fields: Dict, fallback: string)
    ensures var status := if "status" in fields && fields["status"].Str? then Strip(Lower(fields["status"].s)) else "";
            NormalizeTaskStatus(Mapping(fields), fallback) ==
            if status == "error" || status == "failed" || status == "failure" then "error"
            else if status == "timeout" || status == "timed_out" then "timeout"
            else if status == "ok" || status == "success" then "success"
            else if "error" in fields && Truthy(fields["error"]) then "error"
            else fallback
    ensures NormalizeTaskStatus(NotMapping(true), fallback) == fallback && NormalizeTaskStatus(NotMapping(false), fallback) == fallback
  {
  }

  /** What the exception branches report. */
  lemma RaisedMeaning(message: string, seconds: int)
    ensures OutcomeStatus(ConnectionRetry(message)) == "error"
    ensures OutcomePayload(ConnectionRetry(message)).fields == map["error" := Str(message), "connection_retry" := Bool(true)]
    ensures OutcomeStatus(SoftTimeLimit(seconds)) == "timeout"
    ensures OutcomePayload(SoftTimeLimit(seconds)).fields.Keys == {"error", "timeout_seconds"}
    ensures OutcomePayload(SoftTimeLimit(seconds)).fields["timeout_seconds"] == Num(seconds as real)
    ensures OutcomeStatus(Failed(message)) == "error"
    ensures OutcomePayload(Failed(message)).fields == map["error" := Str(message)]
  {
  }

  /** What one engine's result leaves in the table: its own row with its status
      when an attempt lands, and otherwise a failed job with the orchestrator's
      row if that lands. */
  lemma AfterPersistMeaning(db: Db, engine: string, o: Outcome, at: int, landed: bool, reportLands: bool)
    requires db.job.Some? && engine != ORCHESTRATOR
    ensures var after := AfterPersist(db, engine, o, at, landed, reportLands);
            && after.job.Some? && after.usage == db.usage
            && (landed && OutcomePayload(o) != NotMapping(true) ==>
                  && after.job == db.job
                  && Find(after.rows, engine).Some? && Find(after.rows, engine).value.status == OutcomeStatus(o)
                  && Find(after.rows, ORCHESTRATOR) == Find(db.rows, ORCHESTRATOR))
            && (!(landed && OutcomePayload(o) != NotMapping(true)) ==>
                  && after.job.value.status == "error" && after.job.value.completedAt == Some(at)
                  && Find(after.rows, engine) == Find(db.rows, engine)
                  && (reportLands ==> Find(after.rows, ORCHESTRATOR).Some?) && (!reportLands ==> after.rows == db.rows))
  {
    if landed && CanStore(db, OutcomePayload(o)) {
      RecordedMeaning(db, engine, OutcomeStatus(o), OutcomePayload(o), at, ORCHESTRATOR);
    } else {
      RecordedMeaning(db, ORCHESTRATOR, "error", ErrorPayload("Failed to persist engine result for " + engine), at, engine);
    }
  }
}
