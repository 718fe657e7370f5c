/** The records of one scan job and the transactions on them
    (app/services/orchestrator/dispatcher.py). */
module Dispatcher {
  import opened Sequences
  import opened Payloads
  import opened Results
  import opened Summary

  const ORCHESTRATOR := "Orchestrator"
  const PENDING := "pending..."
  const RUNNING := "running..."
  const FAILED := "error"
  const DONE := "done"
  const DONE_WITH_ERRORS := "done_with_errors"

  predicate Terminal(status: string) { status in {FAILED, DONE, DONE_WITH_ERRORS} }

  datatype Job = Job(status: string, completedAt: Option<int>, hasKey: bool)

  datatype Usage = Usage(status: string, verdict: Option<string>)

  /** Everything stored under one job id. */
  datatype Db = Db(job: Option<Job>, rows: seq<EngineRow>, usage: Option<Usage>)

  /** What an engine handed back: a dictionary, or something else. */
  datatype Payload = Mapping(fields: Dict) | NotMapping(truthy: bool)

  // --------------------------------------------------------------- rows

  /** Insert, or update on the unique engine of the job. */
  function Upsert(rows: seq<EngineRow>, row: EngineRow): seq<EngineRow> {
    if rows == [] then [row]
    else if rows[0].engine == row.engine then [row] + rows[1..]
    else [rows[0]] + Upsert(rows[1..], row)
  }

  function Find(rows: seq<EngineRow>, engine: string): Option<EngineRow> {
    if rows == [] then None
    else if rows[0].engine == engine then Some(rows[0])
    else Find(rows[1..], engine)
  }

  ghost predicate UniqueEngines(rows: seq<EngineRow>) {
    forall i, j | 0 <= i < j < |rows| :: rows[i].engine != rows[j].engine
  }

  /** The upsert changes the answer for its own engine only. */
  lemma {:induction false} FindUpsert(rows: seq<EngineRow>, row: EngineRow, engine: string)
    ensures Find(Upsert(rows, row), engine) == if engine == row.engine then Some(row) else Find(rows, engine)
  {
    if rows != [] {
      FindUpsert(rows[1..], row, engine);
    }
  }

  lemma {:induction false} UpsertMembers(rows: seq<EngineRow>, row: EngineRow)
    ensures row in Upsert(rows, row)
    ensures forall r | r in Upsert(rows, row) :: r == row || r in rows
    ensures forall r | r in rows && r.engine != row.engine :: r in Upsert(rows, row)
  {
    if rows != [] {
      assert rows == [rows[0]] + rows[1..];
      UpsertMembers(rows[1..], row);
    }
  }

  /** One row per job and engine is kept. */
  lemma {:induction false} UpsertUnique(rows: seq<EngineRow>, row: EngineRow)
    requires UniqueEngines(rows)
    ensures UniqueEngines(Upsert(rows, row))
  {
    if rows != [] {
      if rows[0].engine != row.engine {
        UpsertUnique(rows[1..], row);
        UpsertMembers(rows[1..], row);
      }
    }
  }

  lemma {:induction false} FindMember(rows: seq<EngineRow>, engine: string)
    ensures Find(rows, engine).Some? ==> Find(rows, engine).value in rows && Find(rows, engine).value.engine == engine
    ensures (exists r :: r in rows && r.engine == engine) ==> Find(rows, engine).Some?
  {
    if rows != [] {
      assert rows == [rows[0]] + rows[1..];
      FindMember(rows[1..], engine);
    }
  }

  lemma {:induction false} MemberFound(rows: seq<EngineRow>, row: EngineRow)
    requires UniqueEngines(rows) && row in rows
    ensures Find(rows, row.engine) == Some(row)
  {
    assert rows == [rows[0]] + rows[1..];
    if rows[0] != row {
      var i :| 0 <= i < |rows| && rows[i] == row;
      assert rows[0].engine != rows[i].engine;
      MemberFound(rows[1..], row);
    }
  }

  // ------------------------------------------------------- transactions

  /** `result or {}` with engine and status defaulted; `None` where the
      payload is not a dictionary and the call raises. */
  function StoredPayload(payload: Payload, engine: string, status: string): Option<Dict> {
    if payload.NotMapping? && payload.truthy then None
    else
      var d := if payload.Mapping? then payload.fields else map[];
      Some(SetDefault(SetDefault(d, "engine", Str(engine)), "status", Str(status)))
  }

  /** A result that can be stored is stored when the job exists and the
      transaction lands. */
  predicate CanStore(db: Db, payload: Payload) {
    db.job.Some? && !(payload.NotMapping? && payload.truthy)
  }

  function Recorded(db: Db, engine: string, status: string, payload: Payload, at: int): Db {
    match StoredPayload(payload, engine, status)
    case Some(d) => if db.job.Some? then db.(rows := Upsert(db.rows, EngineRow(engine, status, d, at))) else db
    case None => db
  }

  function Marked(db: Db, status: string, completed: Option<int>): Db {
    if db.job.None? then db
    else
      var job := db.job.value;
      db.(job := Some(Job(status, if completed.Some? then completed else job.completedAt, job.hasKey)))
  }

  function ErrorPayload(message: string): Payload { Mapping(map["error" := Str(message)]) }

  /** The two transactions of a dispatch error, when the first one lands or not. */
  function DispatchErrorRow(db: Db, message: string, at: int, landed: bool): Db {
    if landed then Recorded(db, ORCHESTRATOR, "error", ErrorPayload(message), at) else db
  }

  function Succeeded(row: EngineRow): bool { row.status == "success" }

  function CountSuccesses(rows: seq<EngineRow>): nat {
    if rows == [] then 0
    else CountSuccesses(rows[..|rows| - 1]) + (if Succeeded(rows[|rows| - 1]) then 1 else 0)
  }

  /** The closing status: done only on rows that all succeeded. */
  function FinalStatus(rows: seq<EngineRow>): string {
    if rows == [] then FAILED
    else if forall r | r in rows :: !Succeeded(r) then FAILED
    else if exists r | r in rows :: !Succeeded(r) then DONE_WITH_ERRORS
    else DONE
  }

  function ByScanTime(): (EngineRow, EngineRow) -> bool {
    (a: EngineRow, b: EngineRow) => a.scannedAt <= b.scannedAt
  }

  function Finalized(db: Db, at: int, weights: Weights, parse: Parser): Db
    requires Readable(db.rows, parse)
  {
    if db.job.None? then db
    else
      var status := FinalStatus(db.rows);
      var summary := Summarize(status, db.rows, weights, parse);
      Db(Some(Job(status, Some(at), db.job.value.hasKey)),
         RowsAfter(db.rows, parse),
         if db.job.value.hasKey then Some(Usage(status, Some(summary.verdict))) else db.usage)
  }

  // -------------------------------------------------------- the store

  datatype RecordResult = Stored | NotStored | Raised

  datatype FinalizeResult = NoJob | Crashed | Closed(summary: JobSummary)

  class JobStore {
    var job: Option<Job>
    var rows: seq<EngineRow>
    var usage: Option<Usage>

    constructor (db: Db)
      ensures State() == db
    {
      job, rows, usage := db.job, db.rows, db.usage;
    }

    function State(): Db
      reads this
    {
      Db(job, rows, usage)
    }

    method MarkJobStatus(status: string, completed: Option<int>) returns (found: bool)
      modifies this
      ensures State() == Marked(old(State()), status, completed)
      ensures found == old(job).Some?
    {
      if job.None? {
        return false;
      }
      job := Some(job.value.(status := status));
      if completed.Some? {
        job := Some(job.value.(completedAt := completed));
      }
      found := true;
    }

    /** Stores one result; `lands` says whether the database accepts the write. */
    method RecordEngineResult(engine: string, status: string, payload: Payload, at: int, lands: bool)
      returns (r: RecordResult)
      modifies this
      ensures r.Stored? <==> CanStore(old(State()), payload) && lands
      ensures r.Raised? <==> payload.NotMapping? && payload.truthy
      ensures State() == if r.Stored? then Recorded(old(State()), engine, status, payload, at) else old(State())
    {
      var stored := StoredPayload(payload, engine, status);
      if stored.None? {
        return Raised;
      }
      if job.None? {
        return NotStored;
      }
      if !lands {
        return NotStored;
      }
      rows := Upsert(rows, EngineRow(engine, status, stored.value, at));
      r := Stored;
    }

    method RecordDispatchError(message: string, at: int, lands: bool)
      modifies this
      ensures State() == Marked(DispatchErrorRow(old(State()), message, at, lands), FAILED, Some(at))
    {
      var _ := RecordEngineResult(ORCHESTRATOR, "error", ErrorPayload(message), at, lands);
      var _ := MarkJobStatus(FAILED, Some(at));
    }

    method UpsertApiKeyUsage(status: string, verdict: Option<string>)
      modifies this`usage
      ensures usage == Some(Usage(status, verdict))
    {
      usage := Some(Usage(status, verdict));
    }

    /** Closes the job: counts the rows in scan order, sets the status, writes
        the summary's verdict to the usage row, and leaves the payloads as
        serialisation rewrote them. A payload the aggregator cannot read makes
        it raise, and then nothing is committed. */
    method FinalizeJobSummary(at: int, weights: Weights, parse: Parser) returns (r: FinalizeResult)
      modifies this
      ensures r.NoJob? <==> old(job).None?
      ensures r.Crashed? <==> old(job).Some? && !Readable(old(rows), parse)
      ensures !r.Closed? ==> State() == old(State())
      ensures r.Closed? ==>
                && State() == Finalized(old(State()), at, weights, parse)
                && r.summary == Summarize(FinalStatus(old(rows)), old(rows), weights, parse)
    {
      if job.None? {
        return NoJob;
      }
      if !Readable(rows, parse) {
        return Crashed;
      }
      var sorted := Sort(rows, ByScanTime());
      SortSorted(rows, ByScanTime());
      SortMembers(rows, ByScanTime());
      StatusPermutation(rows, sorted);
      var status := CloseStatus(sorted);
      SummaryPermutation(status, rows, sorted, weights, parse);
      var closing := Summarize(status, sorted, weights, parse);
      job := Some(Job(status, Some(at), job.value.hasKey));
      if job.value.hasKey {
        UpsertApiKeyUsage(status, Some(closing.verdict));
      }
      rows := RowsAfter(rows, parse);
      r := Closed(closing);
    }
  }

  method CountOutcomes(rows: seq<EngineRow>) returns (successes: nat, errors: nat)
    ensures successes == CountSuccesses(rows) && successes + errors == |rows|
  {
    successes, errors := 0, 0;
    for i := 0 to |rows|
      invariant successes == CountSuccesses(rows[..i]) && successes + errors == i
    {
      assert rows[..i + 1][..i] == rows[..i];
      if Succeeded(rows[i]) {
        successes := successes + 1;
      } else {
        errors := errors + 1;
      }
    }
    assert rows[..|rows|] == rows;
  }

  lemma {:induction false} SuccessBounds(rows: seq<EngineRow>)
    ensures CountSuccesses(rows) <= |rows|
    ensures CountSuccesses(rows) == 0 <==> forall r | r in rows :: !Succeeded(r)
    ensures CountSuccesses(rows) == |rows| <==> forall r | r in rows :: Succeeded(r)
  {
    if rows != [] {
      SuccessBounds(rows[..|rows| - 1]);
      assert rows == rows[..|rows| - 1] + [rows[|rows| - 1]];
    }
  }

  lemma StatusPermutation(rows: seq<EngineRow>, sorted: seq<EngineRow>)
    requires multiset(rows) == multiset(sorted)
    ensures FinalStatus(rows) == FinalStatus(sorted)
  {
    SameLength(rows, sorted);
    SameMembers(rows, sorted);
  }

  /** The success and error counters decide the closing status. */
  method CloseStatus(rows: seq<EngineRow>) returns (status: string)
    ensures status == FinalStatus(rows)
  {
    var successes, errors := CountOutcomes(rows);
    SuccessBounds(rows);
    if rows == [] {
      status := FAILED;
    } else if successes == 0 && errors > 0 {
      status := FAILED;
    } else if errors > 0 {
      assert rows[0] in rows;
      status := DONE_WITH_ERRORS;
    } else {
      assert rows[0] in rows;
      status := DONE;
    }
  }

  // ------------------------------------------------ what a transaction leaves

  /** A stored payload is the payload with the engine and the status filled in
      where it has none; nothing to hand back counts as an empty one. */
  lemma StoredPayloadMeaning(payload: Payload, engine: string, status: string, name: string)
    ensures StoredPayload(payload, engine, status).None? <==> payload == NotMapping(true)
    ensures StoredPayload(payload, engine, status).Some? ==>
              var d := StoredPayload(payload, engine, status).value;
              var fields := if payload.Mapping? then payload.fields else map[];
              && (name in fields ==> name in d && d[name] == fields[name])
              && (name !in fields ==>
                    if name == "engine" then name in d && d[name] == Str(engine)
                    else if name == "status" then name in d && d[name] == Str(status)
                    else name !in d)
  {
  }

  /** Storing a result gives its engine that row and leaves every other row, the
      job and the usage as they were. */
  lemma RecordedMeaning(db: Db, engine: string, status: string, payload: Payload, at: int, other: string)
    ensures var after := Recorded(db, engine, status, payload, at);
            && after.job == db.job && after.usage == db.usage
            && (CanStore(db, payload) ==>
                  Find(after.rows, engine) == Some(EngineRow(engine, status, StoredPayload(payload, engine, status).value, at)))
            && (!CanStore(db, payload) ==> after == db)
            && (other != engine ==> Find(after.rows, other) == Find(db.rows, other))
    ensures CanStore(db, payload) <==> db.job.Some? && payload != NotMapping(true)
  {
    if CanStore(db, payload) {
      var row := EngineRow(engine, status, StoredPayload(payload, engine, status).value, at);
      FindUpsert(db.rows, row, engine);
      FindUpsert(db.rows, row, other);
    }
  }

  /** A status change sets the status of an existing job, its completion time
      only when one is given, and nothing else. */
  lemma MarkedMeaning(db: Db, status: string, at: int)
    ensures db.job.None? ==> Marked(db, status, None) == db && Marked(db, status, Some(at)) == db
    ensures db.job.Some? ==>
              && Marked(db, status, None) == db.(job := Some(db.job.value.(status := status)))
              && Marked(db, status, Some(at)) == db.(job := Some(db.job.value.(status := status, completedAt := Some(at))))
  {
  }

  /** A dispatch error is a row of the orchestrator with the status and the
      message of the error. */
  lemma DispatchErrorMeaning(db: Db, message: string, at: int)
    requires db.job.Some?
    ensures Find(DispatchErrorRow(db, message, at, true).rows, "Orchestrator")
            == Some(EngineRow("Orchestrator", "error",
                              map["error" := Str(message), "engine" := Str("Orchestrator"), "status" := Str("error")], at))
    ensures DispatchErrorRow(db, message, at, false) == db
  {
    RecordedMeaning(db, "Orchestrator", "error", ErrorPayload(message), at, "");
    assert StoredPayload(ErrorPayload(message), "Orchestrator", "error").value
        == map["error" := Str(message), "engine" := Str("Orchestrator"), "status" := Str("error")];
  }

  /** The closing status by its rows. */
  lemma FinalStatusMeaning(rows: seq<EngineRow>)
    ensures FinalStatus(rows) == "done" <==> rows != [] && forall r | r in rows :: r.status == "success"
    ensures FinalStatus(rows) == "error" <==> forall r | r in rows :: r.status != "success"
    ensures FinalStatus(rows) == "done_with_errors" <==>
            (exists r :: r in rows && r.status == "success") && (exists r :: r in rows && r.status != "success")
  {
    if rows != [] { assert rows[0] in rows; }
  }

  /** Finalizing closes the job at that instant and writes the verdict to the
      usage row of a job with a key; a job without one has no usage row. */
  lemma FinalizedMeaning(db: Db, at: int, weights: Weights, parse: Parser)
    requires Readable(db.rows, parse) && db.job.Some?
    ensures var after := Finalized(db, at, weights, parse);
            && after.job == Some(Job(FinalStatus(db.rows), Some(at), db.job.value.hasKey))
            && |after.rows| == |db.rows| && (forall i | 0 <= i < |db.rows| :: after.rows[i] == RowAfter(db.rows[i], parse))
            && (db.job.value.hasKey ==>
                  after.usage == Some(Usage(FinalStatus(db.rows),
                                            Some(Summarize(FinalStatus(db.rows), db.rows, weights, parse).verdict))))
            && (!db.job.value.hasKey ==> after.usage == db.usage)
  {
  }
}
