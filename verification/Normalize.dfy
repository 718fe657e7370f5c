/** Building the uniform payload every engine returns (app/services/aggregator/normalize.py). */
module Normalize {
  import opened Strings
  import opened Payloads
  import opened Results
  import opened Severity

  const VERDICTS: set<string> := {"clean", "malicious", "suspicious", "error", "unknown"}

  /** The arguments an engine passes. */
  datatype Report = Report(
    engine: string, detected: Option<bool>, signature: Option<string>, family: Option<string>,
    category: Option<string>, severity: Option<string>, confidence: Value, status: Option<string>,
    verdict: Option<string>, error: Option<string>)

  /** `s or default` */
  function OrElse(s: Option<string>, default: string): string {
    if s.Some? && s.value != "" then s.value else default
  }

  function NormalizeSeverity(severity: Option<string>): string {
    var level := Lower(OrElse(severity, "informational"));
    if level in LEVELS then level else "informational"
  }

  function ClampConfidence(confidence: Value, parse: Parser): (c: real)
    ensures 0.0 <= c <= 1.0
  {
    match ToFloat(confidence, parse)
    case None => 0.0
    case Some(x) => if x <= 0.0 then 0.0 else if x >= 1.0 then 1.0 else x
  }

  function NormalizeStatus(status: Option<string>, error: Option<string>): string {
    if OrElse(error, "") != "" then "error"
    else
      var s := Lower(OrElse(status, "ok"));
      if s == "ok" || s == "error" then s else "ok"
  }

  function NormalizeVerdict(status: string, detected: bool, verdict: Option<string>): string {
    if status == "error" then "error"
    else
      var inferred := if detected then "malicious" else "clean";
      var v := Lower(OrElse(verdict, inferred));
      if v in VERDICTS then v else inferred
  }

  function TextOrNull(s: Option<string>): Value { if s.Some? then Str(s.value) else Null }

  function NormalizeEngineResult(report: Report, parse: Parser): Dict {
    var detected := report.detected.Some? && report.detected.value;
    var status := NormalizeStatus(report.status, report.error);
    var severity := NormalizeSeverity(report.severity);
    map["engine" := Str(report.engine),
        "status" := Str(status),
        "detected" := Bool(detected),
        "verdict" := Str(NormalizeVerdict(status, detected, report.verdict)),
        "severity" := Str(severity),
        "severity_score" := Num(ScoreOf(severity)),
        "confidence" := Num(ClampConfidence(report.confidence, parse)),
        "signature" := TextOrNull(report.signature),
        "malware_family" := TextOrNull(report.family),
        "category" := TextOrNull(report.category),
        "error" := TextOrNull(report.error)]
  }

  lemma LowerFixed()
    ensures Lower("ok") == "ok" && Lower("error") == "error"
    ensures Lower("malicious") == "malicious" && Lower("clean") == "clean"
  {
  }

  /** Every normalized payload is readable by the aggregator and carries a
      confidence in [0, 1] and a score that matches its severity label. */
  lemma NormalizedNumbers(report: Report, parse: Parser)
    ensures var d := NormalizeEngineResult(report, parse);
            && d.Keys >= {"engine", "status", "verdict", "severity", "severity_score", "confidence"}
            && WellTyped(d) && d["engine"].Str? && TextLike(Get(d, "signature"))
            && d["confidence"].Num? && 0.0 <= d["confidence"].r <= 1.0
            && d["severity"].Str? && d["severity"].s in LEVELS && d["severity_score"] == Num(ScoreOf(d["severity"].s))
  {
    assert LEVELS[0] == "informational";
  }

  /** A normalized payload votes exactly when it reports no error and its given
      status is not "error"; what votes has a recognised verdict, and what does
      not says "error" twice. */
  lemma NormalizedVotes(report: Report, parse: Parser)
    ensures WellTyped(NormalizeEngineResult(report, parse))
    ensures var d := NormalizeEngineResult(report, parse);
            && (IsOk(d) <==> OrElse(report.error, "") == "" && Lower(OrElse(report.status, "ok")) != "error")
            && (!IsOk(d) ==> d["status"] == Str("error") && d["verdict"] == Str("error"))
            && (IsOk(d) ==> d["status"] == Str("ok") && VoteOf(d) in VERDICTS)
  {
    LowerFixed();
    var d := NormalizeEngineResult(report, parse);
    assert Get(d, "status") == Str(NormalizeStatus(report.status, report.error));
    var detected := report.detected.Some? && report.detected.value;
    var verdict := NormalizeVerdict(NormalizeStatus(report.status, report.error), detected, report.verdict);
    assert Get(d, "verdict") == Str(verdict);
    LowerTwice(OrElse(report.verdict, if detected then "malicious" else "clean"));
  }

  /** What a normalized payload says of the report. It is ok unless the report
      carries an error or has the status "error". */
  lemma NormalizedStatus(report: Report, parse: Parser)
    ensures var d := NormalizeEngineResult(report, parse);
            var failed := (report.error.Some? && report.error.value != "")
                          || (report.status.Some? && Lower(report.status.value) == "error");
            && d["status"] == (if failed then Str("error") else Str("ok"))
            && (failed ==> d["verdict"] == Str("error"))
            && d["detected"] == Bool(report.detected == Some(true))
            && d["engine"] == Str(report.engine)
  {
    LowerFixed();
  }

  /** The vote of an ok payload: the verdict the report gives, in any letter
      case, if it is one of the five; otherwise malicious for a detection and
      clean for none. */
  lemma NormalizedVerdict(report: Report, parse: Parser)
    requires IsOk(NormalizeEngineResult(report, parse))
    ensures WellTyped(NormalizeEngineResult(report, parse))
    ensures VoteOf(NormalizeEngineResult(report, parse)) ==
            if report.verdict.Some? && Lower(report.verdict.value) in {"clean", "malicious", "suspicious", "error", "unknown"}
            then Lower(report.verdict.value)
            else if report.detected == Some(true) then "malicious"
            else "clean"
  {
    LowerFixed();
    NormalizedVotes(report, parse);
    var d := NormalizeEngineResult(report, parse);
    var detected := report.detected == Some(true);
    var verdict := NormalizeVerdict("ok", detected, report.verdict);
    assert Get(d, "verdict") == Str(verdict);
    if report.verdict.Some? {
      LowerTwice(report.verdict.value);
      EmptyIsNoVerdict(report.verdict.value);
    }
  }

  lemma EmptyIsNoVerdict(s: string)
    ensures s == "" <==> Lower(s) == ""
  {
  }

  /** The severity is the one given, in any letter case, if it is a level, with
      the level's score; the confidence is the one given, cut to [0, 1]. */
  lemma NormalizedScales(report: Report, parse: Parser)
    ensures var d := NormalizeEngineResult(report, parse);
            && d["severity"] == (if report.severity.Some?
                                    && Lower(report.severity.value) in {"informational", "low", "medium", "high", "critical"}
                                 then Str(Lower(report.severity.value)) else Str("informational"))
            && d["severity_score"] == Num(ScoreOf(d["severity"].s))
            && d["confidence"] ==
               match ToFloat(report.confidence, parse)
               case None => Num(0.0)
               case Some(x) => Num(if x < 0.0 then 0.0 else if x > 1.0 then 1.0 else x)
  {
    assert LEVELS[0] == "informational" && LEVELS[1] == "low" && LEVELS[2] == "medium";
    assert LEVELS[3] == "high" && LEVELS[4] == "critical";
    assert Lower("informational") == "informational";
    if report.severity.Some? { EmptyIsNoVerdict(report.severity.value); }
  }

  /** Signature, family, category and error are passed on. */
  lemma NormalizedTexts(report: Report, parse: Parser)
    ensures var d := NormalizeEngineResult(report, parse);
            && d["signature"] == (if report.signature.Some? then Str(report.signature.value) else Null)
            && d["malware_family"] == (if report.family.Some? then Str(report.family.value) else Null)
            && d["category"] == (if report.category.Some? then Str(report.category.value) else Null)
            && d["error"] == (if report.error.Some? then Str(report.error.value) else Null)
  {
  }
}
