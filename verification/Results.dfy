/** How the aggregator reads one engine result (app/services/aggregator). */
module Results {
  import opened Sequences
  import opened Strings
  import opened Payloads

  const DEFAULT_WEIGHT := 0.15

  type Weights = map<string, real>

  /** `d.get("engine_key") or d.get("engine", "")` */
  function EngineField(d: Dict): Value {
    if Truthy(Get(d, "engine_key")) then Get(d, "engine_key") else Get(d, "engine")
  }

  predicate IsOk(d: Dict) { Lower(TextOf(Get(d, "status"))) == "ok" }

  /** A result whose text fields are text as far as they are looked at; on
      anything else the voting raises. */
  predicate WellTyped(d: Dict) {
    && TextLike(EngineField(d)) && TextLike(Get(d, "status"))
    && (IsOk(d) ==> TextLike(Get(d, "verdict")))
  }

  type ResultDict = d: Dict | WellTyped(d) witness map[]

  /** A number field that can be read; those of a failed result never are. */
  predicate Legible(d: Dict, field: string, parse: Parser) { IsOk(d) ==> NumberLike(Get(d, field), parse) }

  predicate AllLegible(results: seq<ResultDict>, field: string, parse: Parser) {
    forall d | d in results :: Legible(d, field, parse)
  }

  function EngineName(d: ResultDict): string { TextOf(EngineField(d)) }

  /** The vote of an ok result: its verdict, or else what `detected` implies. */
  function VoteOf(d: ResultDict): string {
    var verdict := Lower(TextOf(Get(d, "verdict")));
    if verdict != "" then verdict
    else if Truthy(Get(d, "detected")) then "malicious" else "clean"
  }

  /** The trust weight of an engine; configured weights that are not positive
      fall back to the default. */
  function WeightForEngine(engine: string, weights: Weights): (w: real)
    ensures w > 0.0
  {
    var key := Lower(engine);
    if key in weights && weights[key] > 0.0 then weights[key] else DEFAULT_WEIGHT
  }

  /** Letter case does not matter, and a positive configured weight is used. */
  lemma WeightMeaning(engine: string, other: string, weights: Weights)
    requires Lower(engine) == Lower(other)
    ensures WeightForEngine(engine, weights) == WeightForEngine(other, weights)
    ensures Lower(engine) in weights && weights[Lower(engine)] > 0.0 ==>
              WeightForEngine(Lower(engine), weights) == weights[Lower(engine)]
    ensures Lower(engine) !in weights || weights[Lower(engine)] <= 0.0 ==>
              WeightForEngine(Lower(engine), weights) == 0.15
  {
    LowerTwice(engine);
  }

  function WeightOf(d: ResultDict, weights: Weights): (w: real)
    ensures w > 0.0
  {
    WeightForEngine(EngineName(d), weights)
  }

  function WeightShare(weights: Weights): ResultDict -> real {
    (d: ResultDict) => WeightOf(d, weights)
  }

  function Failed(): ResultDict -> bool { (d: ResultDict) => !IsOk(d) }

  /** The ok results with this vote. */
  function Votes(vote: string): ResultDict -> bool { (d: ResultDict) => IsOk(d) && VoteOf(d) == vote }

  /** The ok results whose vote is none of the three. */
  function VotesOtherwise(): ResultDict -> bool {
    (d: ResultDict) => IsOk(d) && VoteOf(d) !in {"malicious", "suspicious", "clean"}
  }

  /** The total weight of the results of one kind. */
  function WeightOfKind(results: seq<ResultDict>, kind: ResultDict -> bool, weights: Weights): real {
    Sum(Filter(results, kind), WeightShare(weights))
  }

  function FullShare(vote: string, weights: Weights): ResultDict -> real {
    (d: ResultDict) => if IsOk(d) && VoteOf(d) == vote then WeightOf(d, weights) else 0.0
  }

  lemma FullShareSum(results: seq<ResultDict>, vote: string, weights: Weights)
    ensures Sum(results, FullShare(vote, weights)) == WeightOfKind(results, Votes(vote), weights)
  {
    SumOfFilter(results, Votes(vote), WeightShare(weights), FullShare(vote, weights));
  }

  /** How the fields of a result are read: the status in any letter case, the
      verdict before the detection, and the engine key before the engine. */
  lemma ResultMeaning(d: ResultDict, s: string)
    ensures "status" in d && d["status"] == Str(s) ==> (IsOk(d) <==> Lower(s) == "ok")
    ensures "status" !in d ==> !IsOk(d)
    ensures "verdict" in d && d["verdict"] == Str(s) && s != "" ==> VoteOf(d) == Lower(s)
    ensures "verdict" !in d && "detected" in d && d["detected"] == Bool(true) ==> VoteOf(d) == "malicious"
    ensures "verdict" !in d && ("detected" !in d || d["detected"] == Bool(false)) ==> VoteOf(d) == "clean"
    ensures "engine_key" in d && d["engine_key"] == Str(s) && s != "" ==> EngineName(d) == s
    ensures "engine_key" !in d && "engine" in d && d["engine"] == Str(s) ==> EngineName(d) == s
  {
  }

  ghost predicate SomeOk(results: seq<ResultDict>) { exists d :: d in results && IsOk(d) }
}
