/** Serialising stored rows and summarising a job (app/services/aggregator/summary.py). */
module Summary {
  import opened Sequences
  import opened Strings
  import opened Payloads
  import opened Results
  import opened Severity
  import Voting
  import Confidence
  import Families

  /** One row of the engine result table. */
  datatype EngineRow = EngineRow(engine: string, status: string, result: Dict, scannedAt: int)

  /** The recognised severity label a field stands for. */
  function NormalSeverity(v: Value): string {
    if v.Str? && Lower(Strip(v.s)) in LEVELS then Lower(Strip(v.s)) else "informational"
  }

  function EngineKey(row: EngineRow): Value {
    if row.engine != "" then Str(row.engine) else Get(row.result, "engine")
  }

  /** The payload with its engine, status and default fields filled in. */
  function WithDefaults(row: EngineRow): Dict {
    var key := EngineKey(row);
    var p := if Truthy(key) then row.result["engine_key" := key] else row.result;
    var p := SetDefault(p, "engine", key);
    var p := SetDefault(p, "status", Str(if row.status == "success" then "ok" else "error"));
    var p := SetDefault(p, "detected", Bool(false));
    SetDefault(p, "confidence", Num(0.0))
  }

  function SeverityScore(p: Dict, level: string, parse: Parser): real {
    match ToFloat(Get(p, "severity_score"), parse)
    case Some(score) => score
    case None => ScoreOf(level)
  }

  function Serialized(row: EngineRow, parse: Parser): Dict {
    var p := WithDefaults(row);
    var level := NormalSeverity(Get(p, "severity"));
    p["severity" := Str(level)]
     ["severity_score" := Num(SeverityScore(p, level, parse))]
     ["scanned_at" := Num(row.scannedAt as real)]
  }

  /** The row once its payload was serialised in place; an empty payload is
      replaced by a fresh one that is not stored back. */
  function RowAfter(row: EngineRow, parse: Parser): EngineRow {
    if row.result == map[] then row else row.(result := Serialized(row, parse))
  }

  lemma NormalSeverityFixed(v: Value)
    ensures NormalSeverity(Str(NormalSeverity(v))) == NormalSeverity(v)
    ensures NormalSeverity(v) in LEVELS
  {
    if v.Str? && Lower(Strip(v.s)) in LEVELS {
      StripLower(Strip(v.s));
      StripTwice(v.s);
      LowerTwice(Strip(v.s));
    } else {
      assert LEVELS[0] == "informational";
      assert Strip("informational") == "informational";
      assert Lower("informational") == "informational";
    }
  }

  /** Serialising twice is serialising once. */
  lemma SerializeIdempotent(row: EngineRow, parse: Parser)
    ensures Serialized(row.(result := Serialized(row, parse)), parse) == Serialized(row, parse)
  {
    var p, q := WithDefaults(row), Serialized(row, parse);
    NormalSeverityFixed(Get(p, "severity"));
    SerializedKeepsKey(row, parse);
    DefaultsStable(row, q);
    assert Get(q, "severity") == Str(NormalSeverity(Get(p, "severity")));
    assert Get(q, "severity_score").Num? && Get(q, "scanned_at") == Num(row.scannedAt as real);
  }

  lemma SerializedKeepsKey(row: EngineRow, parse: Parser)
    ensures var q := Serialized(row, parse);
            && {"engine", "status", "detected", "confidence"} <= q.Keys
            && EngineKey(row.(result := q)) == EngineKey(row)
            && (Truthy(EngineKey(row)) ==> Get(q, "engine_key") == EngineKey(row))
  {
    var p := WithDefaults(row);
    assert {"engine", "status", "detected", "confidence"} <= p.Keys;
    assert Get(p, "engine") == if "engine" in row.result then row.result["engine"] else EngineKey(row);
  }

  lemma DefaultsStable(row: EngineRow, q: Dict)
    requires {"engine", "status", "detected", "confidence"} <= q.Keys
    requires Truthy(EngineKey(row.(result := q))) ==> Get(q, "engine_key") == EngineKey(row.(result := q))
    ensures WithDefaults(row.(result := q)) == q
  {
  }

  /** A stored row re-read after serialisation gives the same payload. */
  lemma ReserializeStored(row: EngineRow, parse: Parser)
    ensures Serialized(RowAfter(row, parse), parse) == Serialized(row, parse)
  {
    SerializeIdempotent(row, parse);
  }

  // ------------------------------------------------------- rows in place

  /** A stored row whose payload serialisation changes in place. */
  class EngineRecord {
    const engine: string
    const status: string
    const scannedAt: int
    var result: Dict

    constructor (row: EngineRow)
      ensures Row() == row
    {
      engine, status, scannedAt, result := row.engine, row.status, row.scannedAt, row.result;
    }

    function Row(): EngineRow
      reads this
    {
      EngineRow(engine, status, result, scannedAt)
    }

    /** A severity that cannot be hashed makes the label lookup raise. */
    method Serialize(parse: Parser) returns (payload: Dict)
      requires !Get(result, "severity").Container?
      modifies this
      ensures payload == Serialized(old(Row()), parse)
      ensures Row() == RowAfter(old(Row()), parse)
    {
      var stored := result != map[];
      payload := result;
      var key := if engine != "" then Str(engine) else Get(payload, "engine");
      if Truthy(key) {
        payload := payload["engine_key" := key];
      }
      payload := SetDefault(payload, "engine", key);
      payload := SetDefault(payload, "status", Str(if status == "success" then "ok" else "error"));
      payload := SetDefault(payload, "detected", Bool(false));
      payload := SetDefault(payload, "confidence", Num(0.0));
      assert payload == WithDefaults(old(Row()));
      var level := NormalSeverity(Get(payload, "severity"));
      payload := payload["severity" := Str(level)];
      var score := ToFloat(Get(payload, "severity_score"), parse);
      payload := payload["severity_score" := Num(if score.Some? then score.value else ScoreOf(level))];
      payload := payload["scanned_at" := Num(scannedAt as real)];
      if stored {
        result := payload;
      }
    }
  }

  ghost predicate AllDistinct(records: seq<EngineRecord>) {
    forall i, j | 0 <= i < j < |records| :: records[i] != records[j]
  }

  /** The records hold exactly these rows. */
  ghost predicate Hold(records: seq<EngineRecord>, rows: seq<EngineRow>)
    reads set r | r in records
  {
    |records| == |rows| && forall i | 0 <= i < |rows| :: records[i].Row() == rows[i]
  }

  function RowsAfter(rows: seq<EngineRow>, parse: Parser): (after: seq<EngineRow>)
    ensures |after| == |rows|
    ensures forall i | 0 <= i < |rows| :: after[i] == RowAfter(rows[i], parse)
  {
    seq(|rows|, i requires 0 <= i < |rows| => RowAfter(rows[i], parse))
  }

  /** Serialises every record, leaving each as if serialised alone. */
  method SerializeAll(records: seq<EngineRecord>, ghost rows: seq<EngineRow>, parse: Parser)
    returns (payloads: seq<Dict>)
    requires AllDistinct(records) && Hold(records, rows)
    requires forall r | r in rows :: !Get(r.result, "severity").Container?
    modifies set r | r in records
    ensures |payloads| == |rows| && forall i | 0 <= i < |rows| :: payloads[i] == Serialized(rows[i], parse)
    ensures Hold(records, RowsAfter(rows, parse))
  {
    payloads := [];
    ghost var now := rows;
    for i := 0 to |records|
      invariant |payloads| == i && |now| == |rows|
      invariant forall j | 0 <= j < i :: payloads[j] == Serialized(rows[j], parse)
      invariant forall j | 0 <= j < |rows| :: now[j] == if j < i then RowAfter(rows[j], parse) else rows[j]
      invariant Hold(records, now)
    {
      var payload := SerializeOne(records, i, now, parse);
      payloads := payloads + [payload];
      now := now[i := RowAfter(rows[i], parse)];
    }
    assert now == RowsAfter(rows, parse);
  }

  /** Serialising one record leaves the others alone. */
  method SerializeOne(records: seq<EngineRecord>, i: nat, ghost rows: seq<EngineRow>, parse: Parser)
    returns (payload: Dict)
    requires AllDistinct(records) && Hold(records, rows) && i < |records|
    requires !Get(rows[i].result, "severity").Container?
    modifies records[i]
    ensures payload == Serialized(rows[i], parse)
    ensures Hold(records, rows[i := RowAfter(rows[i], parse)])
  {
    payload := records[i].Serialize(parse);
  }

  // ----------------------------------------------------------- job summary

  datatype JobSummary = JobSummary(
    status: string, verdict: string, confidence: real, severity: string, severityScore: real, engineCount: nat)

  /** Every row serialises to something the aggregator can read. */
  predicate Readable(rows: seq<EngineRow>, parse: Parser) {
    forall r | r in rows :: ReadableRow(r, parse)
  }

  /** A row that no part of the summary raises on: serialisation looks its own
      severity up, voting reads text, the confidence of an ok payload is read as
      a number, family detection splits its signature, and its engine becomes a
      key. The severity score is a number once serialised. */
  predicate ReadableRow(row: EngineRow, parse: Parser) {
    var d := Serialized(row, parse);
    && !Get(row.result, "severity").Container?
    && WellTyped(d) && Legible(d, "confidence", parse)
    && TextLike(Get(d, "signature"))
    && !Get(d, "engine").Container?
  }

  lemma ScoreIsNumber(row: EngineRow, parse: Parser)
    ensures Get(Serialized(row, parse), "severity_score").Num?
  {
  }

  lemma LegibleRows(rows: seq<EngineRow>, parse: Parser)
    requires Readable(rows, parse)
    ensures AllLegible(ReadRows(rows, parse), "confidence", parse)
    ensures AllLegible(ReadRows(rows, parse), "severity_score", parse)
    ensures forall d | d in ReadRows(rows, parse) :: !Get(d, "engine").Container?
  {
    var results := ReadRows(rows, parse);
    forall d | d in results
      ensures Legible(d, "confidence", parse) && Legible(d, "severity_score", parse) && !Get(d, "engine").Container?
    {
      var i :| 0 <= i < |rows| && results[i] == d;
      assert ReadableRow(rows[i], parse);
      ScoreIsNumber(rows[i], parse);
    }
  }

  function ReadRow(row: EngineRow, parse: Parser): (d: ResultDict)
    requires ReadableRow(row, parse)
  {
    Serialized(row, parse)
  }

  function ReadRows(rows: seq<EngineRow>, parse: Parser): (results: seq<ResultDict>)
    requires Readable(rows, parse)
    ensures |results| == |rows|
    ensures forall i | 0 <= i < |rows| :: results[i] == Serialized(rows[i], parse)
  {
    seq(|rows|, i requires 0 <= i < |rows| => ReadRow(rows[i], parse))
  }

  function Summarize(status: string, rows: seq<EngineRow>, weights: Weights, parse: Parser): JobSummary
    requires Readable(rows, parse)
  {
    var results := ReadRows(rows, parse);
    if results == [] then JobSummary(status, "pending", 0.0, "informational", 0.1, 0)
    else
      var verdict := Voting.Verdict(results, weights);
      var (level, score) := AggregateSeverity(results, weights, parse);
      JobSummary(status, verdict, Confidence.Confidence(results, verdict, weights, parse), level, score, |results|)
  }

  /** A result as family detection reads it. */
  function Signature(d: ResultDict): Families.Signed {
    Families.Signed(Get(d, "engine"), TextOf(Get(d, "signature")))
  }

  function Signatures(results: seq<ResultDict>): (signed: seq<Families.Signed>)
    ensures |signed| == |results|
    ensures forall i | 0 <= i < |results| :: signed[i] == Signature(results[i])
  {
    seq(|results|, i requires 0 <= i < |results| => Signature(results[i]))
  }

  /** The payloads by the engine they name; the last one wins. */
  function DetailsOf(results: seq<ResultDict>): map<Value, Dict> {
    if results == [] then map[]
    else DetailsOf(results[..|results| - 1])[Get(results[|results| - 1], "engine") := results[|results| - 1]]
  }

  lemma {:induction false} DetailsMeaning(results: seq<ResultDict>, engine: Value)
    ensures engine in DetailsOf(results) <==> exists i :: 0 <= i < |results| && Get(results[i], "engine") == engine
    ensures engine in DetailsOf(results) ==>
              exists i :: 0 <= i < |results| && Get(results[i], "engine") == engine && DetailsOf(results)[engine] == results[i]
                          && forall j | i < j < |results| :: Get(results[j], "engine") != engine
  {
    if results != [] {
      var n := |results| - 1;
      DetailsMeaning(results[..n], engine);
      if Get(results[n], "engine") == engine {
        assert DetailsOf(results)[engine] == results[n];
      } else if engine in DetailsOf(results[..n]) {
        var i :| 0 <= i < n && Get(results[..n][i], "engine") == engine && DetailsOf(results[..n])[engine] == results[..n][i]
                 && forall j | i < j < n :: Get(results[..n][j], "engine") != engine;
        LaterOnesDiffer(results, i, engine);
      }
    }
  }

  lemma LaterOnesDiffer(results: seq<ResultDict>, i: nat, engine: Value)
    requires var n := |results| - 1;
             i < n && Get(results[n], "engine") != engine && forall j | i < j < n :: Get(results[..n][j], "engine") != engine
    ensures forall j | i < j < |results| :: Get(results[j], "engine") != engine
  {
    forall j | i < j < |results|
      ensures Get(results[j], "engine") != engine
    {
      if j < |results| - 1 { assert results[..|results| - 1][j] == results[j]; }
    }
  }

  method CollectDetails(results: seq<ResultDict>) returns (details: map<Value, Dict>)
    requires forall d | d in results :: !Get(d, "engine").Container?
    ensures details == DetailsOf(results)
  {
    details := map[];
    for i := 0 to |results|
      invariant details == DetailsOf(results[..i])
    {
      assert results[..i + 1][..i] == results[..i];
      details := details[Get(results[i], "engine") := results[i]];
    }
    assert results[..|results|] == results;
  }

  /** Summarises a job, serialising its records on the way. */
  method SummarizeJob(status: string, records: seq<EngineRecord>, ghost rows: seq<EngineRow>, weights: Weights,
                      parse: Parser)
    returns (summary: JobSummary, families: Families.Detection, details: map<Value, Dict>)
    requires AllDistinct(records) && Hold(records, rows)
    requires Readable(rows, parse)
    modifies set r | r in records
    ensures summary == Summarize(status, rows, weights, parse)
    ensures Families.Describes(families, Signatures(ReadRows(rows, parse)))
    ensures details == DetailsOf(ReadRows(rows, parse))
    ensures Hold(records, RowsAfter(rows, parse))
  {
    assert forall r | r in rows :: ReadableRow(r, parse);
    var payloads := SerializeAll(records, rows, parse);
    assert payloads == ReadRows(rows, parse);
    LegibleRows(rows, parse);
    var results: seq<ResultDict> := payloads;
    if results == [] {
      return JobSummary(status, "pending", 0.0, "informational", 0.1, 0), Families.Detection(None, [], [], []), map[];
    }
    var verdict := Voting.WeightedVerdict(results, weights);
    var level, score := ComputeSeverity(results, weights, parse);
    var confidence := Confidence.WeightedConfidence(results, verdict, weights, parse);
    var detection, _ := Families.DetectFamilies(Signatures(results));
    families := detection;
    details := CollectDetails(results);
    summary := JobSummary(status, verdict, confidence, level, score, |results|);
  }

  /** With one engine ok, a failed engine inserted anywhere leaves verdict,
      severity label and severity score as they were and never raises the
      confidence in that verdict. */
  lemma FailedEngineOnlyCostsConfidence(results: seq<ResultDict>, k: nat, failed: ResultDict, weights: Weights, parse: Parser)
    requires k <= |results| && !IsOk(failed) && SomeOk(results)
    ensures var results' := results[..k] + [failed] + results[k..];
            && Voting.Verdict(results', weights) == Voting.Verdict(results, weights)
            && AggregateSeverity(results', weights, parse) == AggregateSeverity(results, weights, parse)
            && Confidence.Confidence(results', Voting.Verdict(results', weights), weights, parse)
               <= Confidence.Confidence(results, Voting.Verdict(results, weights), weights, parse)
  {
    Voting.FailureKeepsVerdict(results, k, failed, weights);
    FailureKeepsSeverity(results, k, failed, weights, parse);
    Confidence.FailureNeverRaisesConfidence(results, k, failed, Voting.Verdict(results, weights), weights, parse);
  }

  // ----------------------------------------------------- stable summaries

  lemma {:induction false} ReadPermutation(rows: seq<EngineRow>, shuffled: seq<EngineRow>, parse: Parser)
    requires multiset(rows) == multiset(shuffled) && Readable(rows, parse)
    ensures Readable(shuffled, parse)
    ensures multiset(ReadRows(rows, parse)) == multiset(ReadRows(shuffled, parse))
    decreases |rows|
  {
    SameLength(rows, shuffled);
    if rows != [] {
      var k := MatchLast(rows, shuffled);
      var n := |rows| - 1;
      ReadablePiece(rows, shuffled, k, parse);
      ReadPermutation(rows[..n], shuffled[..k] + shuffled[k + 1..], parse);
      assert rows[..n] + rows[n + 1..] == rows[..n];
      ReadRemove(rows, n, parse);
      ReadRemove(shuffled, k, parse);
    }
  }

  lemma ReadRemove(rows: seq<EngineRow>, k: nat, parse: Parser)
    requires k < |rows| && Readable(rows, parse)
    ensures Readable(rows[..k] + rows[k + 1..], parse)
    ensures multiset(ReadRows(rows, parse))
         == multiset(ReadRows(rows[..k] + rows[k + 1..], parse)) + multiset{ReadRows(rows, parse)[k]}
  {
    var results := ReadRows(rows, parse);
    assert results[..k] + results[k + 1..] == ReadRows(rows[..k] + rows[k + 1..], parse);
    MultisetRemove(results, k);
  }

  lemma ReadablePiece(rows: seq<EngineRow>, shuffled: seq<EngineRow>, k: nat, parse: Parser)
    requires multiset(rows) == multiset(shuffled) && k < |shuffled| && Readable(rows, parse)
    ensures Readable(shuffled, parse)
  {
    forall r | r in shuffled ensures ReadableRow(r, parse) {
      assert r in multiset(shuffled);
      assert r in rows;
    }
  }

  /** The summary depends only on which rows there are, not on their order. */
  lemma SummaryPermutation(status: string, rows: seq<EngineRow>, shuffled: seq<EngineRow>, weights: Weights,
                           parse: Parser)
    requires multiset(rows) == multiset(shuffled) && Readable(rows, parse)
    ensures Readable(shuffled, parse)
    ensures Summarize(status, rows, weights, parse) == Summarize(status, shuffled, weights, parse)
  {
    ReadPermutation(rows, shuffled, parse);
    SameLength(rows, shuffled);
    var results, results' := ReadRows(rows, parse), ReadRows(shuffled, parse);
    Voting.VerdictPermutation(results, results', weights);
    SeverityPermutation(results, results', weights, parse);
    Confidence.ConfidencePermutation(results, results', Voting.Verdict(results, weights), weights, parse);
  }

  lemma AfterIsReadable(row: EngineRow, parse: Parser)
    requires ReadableRow(row, parse)
    ensures ReadableRow(RowAfter(row, parse), parse)
  {
    ReserializeStored(row, parse);
    assert Get(Serialized(row, parse), "severity").Str?;
  }

  lemma AfterReadsTheSame(rows: seq<EngineRow>, parse: Parser)
    requires Readable(rows, parse)
    ensures Readable(RowsAfter(rows, parse), parse)
    ensures ReadRows(RowsAfter(rows, parse), parse) == ReadRows(rows, parse)
  {
    var after := RowsAfter(rows, parse);
    forall i | 0 <= i < |rows|
      ensures Serialized(after[i], parse) == Serialized(rows[i], parse) && ReadableRow(after[i], parse)
    {
      ReserializeStored(rows[i], parse);
      AfterIsReadable(rows[i], parse);
    }
  }

  /** Summarising again later, from the rows the first summary rewrote and in
      any order, gives the same verdict, confidence and severity. */
  lemma ResummaryAgrees(status: string, rows: seq<EngineRow>, later: seq<EngineRow>, weights: Weights,
                        parse: Parser)
    requires Readable(rows, parse) && multiset(later) == multiset(RowsAfter(rows, parse))
    ensures Readable(later, parse)
    ensures Summarize(status, later, weights, parse) == Summarize(status, rows, weights, parse)
  {
    var after := RowsAfter(rows, parse);
    AfterReadsTheSame(rows, parse);
    assert Summarize(status, after, weights, parse) == Summarize(status, rows, weights, parse);
    SummaryPermutation(status, after, later, weights, parse);
  }

  // ---------------------------------------------- what serialisation shows

  /** A recognised severity, in any letter case and padded with blanks, is that
      severity; any other text and any other value is informational. */
  lemma NormalSeverityMeaning(v: Value)
    ensures v.Str? && Lower(Strip(v.s)) in {"informational", "low", "medium", "high", "critical"} ==>
              NormalSeverity(v) == Lower(Strip(v.s))
    ensures v.Str? && Lower(Strip(v.s)) !in {"informational", "low", "medium", "high", "critical"} ==>
              NormalSeverity(v) == "informational"
    ensures !v.Str? ==> NormalSeverity(v) == "informational"
  {
    assert LEVELS[0] == "informational" && LEVELS[1] == "low" && LEVELS[2] == "medium";
    assert LEVELS[3] == "high" && LEVELS[4] == "critical";
  }

  /** The serialised payload of a row with an engine: it names the row's engine,
      keeps what the payload says and fills in what it does not. */
  lemma SerializedMeaning(row: EngineRow, parse: Parser)
    requires row.engine != ""
    ensures var d, p := Serialized(row, parse), row.result;
            && Get(d, "engine_key") == Str(row.engine)
            && Get(d, "engine") == (if "engine" in p then p["engine"] else Str(row.engine))
            && Get(d, "status") == (if "status" in p then p["status"] else if row.status == "success" then Str("ok") else Str("error"))
            && Get(d, "detected") == (if "detected" in p then p["detected"] else Bool(false))
            && Get(d, "confidence") == (if "confidence" in p then p["confidence"] else Num(0.0))
            && Get(d, "scanned_at") == Num(row.scannedAt as real)
  {
    var p := WithDefaults(row);
    assert Get(p, "engine_key") == Str(row.engine);
    assert forall name | name !in {"severity", "severity_score", "scanned_at"} :: Get(Serialized(row, parse), name) == Get(p, name);
  }

  /** A row without an engine goes by the engine its payload names. */
  lemma NamelessRow(row: EngineRow, parse: Parser)
    requires row.engine == "" && "engine" in row.result && Truthy(row.result["engine"])
    ensures Get(Serialized(row, parse), "engine_key") == row.result["engine"] == Get(Serialized(row, parse), "engine")
  {
    var p := WithDefaults(row);
    assert Get(p, "engine_key") == row.result["engine"] && Get(p, "engine") == row.result["engine"];
  }

  /** Family detection sees the engine a payload names and its signature, an
      empty one where there is none. */
  lemma SignatureMeaning(d: ResultDict, s: string)
    ensures "engine" in d ==> Signature(d).engine == d["engine"]
    ensures "signature" in d && d["signature"] == Str(s) ==> Signature(d).signature == s
    ensures "signature" !in d || d["signature"] == Null ==> Signature(d).signature == ""
  {
  }

  /** Every other field is untouched. */
  lemma SerializedKeepsOthers(row: EngineRow, parse: Parser, name: string)
    requires name !in {"engine_key", "engine", "status", "detected", "confidence", "severity", "severity_score", "scanned_at"}
    ensures Get(Serialized(row, parse), name) == Get(row.result, name)
  {
    assert Get(WithDefaults(row), name) == Get(row.result, name);
  }

  /** The severity is a level, with the score the payload gives or else its own. */
  lemma SerializedSeverity(row: EngineRow, parse: Parser)
    ensures var d, p := Serialized(row, parse), row.result;
            && Get(d, "severity") == Str(NormalSeverity(Get(p, "severity")))
            && Get(d, "severity_score") ==
               match ToFloat(Get(p, "severity_score"), parse)
               case Some(score) => Num(score)
               case None => Num(ScoreOf(NormalSeverity(Get(p, "severity"))))
  {
    assert Get(WithDefaults(row), "severity") == Get(row.result, "severity");
    assert Get(WithDefaults(row), "severity_score") == Get(row.result, "severity_score");
  }

  /** Serialising rewrites the payload of the row and nothing else; an empty
      payload stays empty in the table. */
  lemma RowAfterMeaning(row: EngineRow, parse: Parser)
    ensures var after := RowAfter(row, parse);
            && after.engine == row.engine && after.status == row.status && after.scannedAt == row.scannedAt
            && after.result == if row.result == map[] then map[] else Serialized(row, parse)
  {
  }

  /** A job without rows is pending; any other summary names the verdict of its
      rows, the severity of its rows, and its confidence in that verdict. */
  lemma SummaryMeaning(status: string, rows: seq<EngineRow>, weights: Weights, parse: Parser)
    requires Readable(rows, parse)
    ensures var s := Summarize(status, rows, weights, parse);
            && s.status == status && s.engineCount == |rows|
            && (rows == [] ==> s.verdict == "pending" && s.confidence == 0.0 && s.severity == "informational" && s.severityScore == 0.1)
            && (rows != [] ==>
                  && s.verdict == Voting.Verdict(ReadRows(rows, parse), weights)
                  && (s.severity, s.severityScore) == AggregateSeverity(ReadRows(rows, parse), weights, parse)
                  && s.confidence == Confidence.Confidence(ReadRows(rows, parse), s.verdict, weights, parse))
  {
  }
}
