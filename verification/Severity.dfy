/** Severity labels and their weighted aggregate (normalize.py, summary.py). */
module Severity {
  import opened Sequences
  import opened Payloads
  import opened Results

  const LEVELS: seq<string> := ["informational", "low", "medium", "high", "critical"]
  const SCORES: seq<real> := [0.1, 0.25, 0.5, 0.75, 1.0]

  /** The score of a label; unknown labels score as informational. */
  function ScoreOf(level: string): real {
    if level == "low" then 0.25
    else if level == "medium" then 0.5
    else if level == "high" then 0.75
    else if level == "critical" then 1.0
    else 0.1
  }

  function Distance(a: real, b: real): real { if a >= b then a - b else b - a }

  /** The scan of `min` over the score table: the first entry at least distance. */
  function ClosestFrom(best: nat, i: nat, score: real): (k: nat)
    requires best < 5 && i <= 5
    ensures k < 5
    decreases 5 - i
  {
    if i == 5 then best
    else if Distance(SCORES[i], score) < Distance(SCORES[best], score) then ClosestFrom(i, i + 1, score)
    else ClosestFrom(best, i + 1, score)
  }

  function ClosestSeverityLabel(score: real): string { LEVELS[ClosestFrom(0, 1, score)] }

  lemma {:induction false} ClosestFromNearest(best: nat, i: nat, score: real)
    requires best < i <= 5
    requires forall j | 0 <= j < i :: Distance(SCORES[best], score) <= Distance(SCORES[j], score)
    requires forall j | 0 <= j < best :: Distance(SCORES[best], score) < Distance(SCORES[j], score)
    ensures var k := ClosestFrom(best, i, score);
            && (forall j | 0 <= j < 5 :: Distance(SCORES[k], score) <= Distance(SCORES[j], score))
            && (forall j | 0 <= j < k :: Distance(SCORES[k], score) < Distance(SCORES[j], score))
    decreases 5 - i
  {
    if i < 5 {
      if Distance(SCORES[i], score) < Distance(SCORES[best], score) {
        ClosestFromNearest(i, i + 1, score);
      } else {
        ClosestFromNearest(best, i + 1, score);
      }
    }
  }

  /** The label is the nearest one, ties going to the milder, which cuts the
      scale at the midpoints between neighbouring scores. */
  lemma ClosestLabelBands(score: real)
    ensures ClosestSeverityLabel(score) == "informational" <==> score <= 0.175
    ensures ClosestSeverityLabel(score) == "low" <==> 0.175 < score <= 0.375
    ensures ClosestSeverityLabel(score) == "medium" <==> 0.375 < score <= 0.625
    ensures ClosestSeverityLabel(score) == "high" <==> 0.625 < score <= 0.875
    ensures ClosestSeverityLabel(score) == "critical" <==> 0.875 < score
  {
  }

  // ------------------------------------------------------------ aggregate

  function OkWeight(weights: Weights): ResultDict -> real {
    (d: ResultDict) => if IsOk(d) then WeightOf(d, weights) else 0.0
  }

  function SeverityShare(weights: Weights, parse: Parser): ResultDict -> real {
    (d: ResultDict) => if IsOk(d) then NumberOf(Get(d, "severity_score"), parse) * WeightOf(d, weights) else 0.0
  }

  function AggregateSeverity(results: seq<ResultDict>, weights: Weights, parse: Parser): (string, real) {
    var total := Sum(results, OkWeight(weights));
    if total <= 0.0 then ("informational", 0.1)
    else
      var average := Sum(results, SeverityShare(weights, parse)) / total;
      (ClosestSeverityLabel(average), average)
  }

  method ComputeSeverity(results: seq<ResultDict>, weights: Weights, parse: Parser) returns (level: string, score: real)
    requires AllLegible(results, "severity_score", parse)
    ensures (level, score) == AggregateSeverity(results, weights, parse)
  {
    var weightedScore, totalWeight := 0.0, 0.0;
    for i := 0 to |results|
      invariant weightedScore == Sum(results[..i], SeverityShare(weights, parse))
      invariant totalWeight == Sum(results[..i], OkWeight(weights))
    {
      SumTake(results, i, SeverityShare(weights, parse));
      SumTake(results, i, OkWeight(weights));
      if !IsOk(results[i]) {
        continue;
      }
      var weight := WeightOf(results[i], weights);
      totalWeight := totalWeight + weight;
      weightedScore := weightedScore + NumberOf(Get(results[i], "severity_score"), parse) * weight;
    }
    assert results[..|results|] == results;
    if totalWeight <= 0.0 {
      return "informational", 0.1;
    }
    score := weightedScore / totalWeight;
    level := ClosestSeverityLabel(score);
  }

  /** Adding a failed engine anywhere changes neither label nor score. */
  lemma FailureKeepsSeverity(results: seq<ResultDict>, k: nat, failed: ResultDict, weights: Weights, parse: Parser)
    requires k <= |results| && !IsOk(failed)
    ensures AggregateSeverity(results[..k] + [failed] + results[k..], weights, parse) == AggregateSeverity(results, weights, parse)
  {
    SumInsert(results, k, failed, OkWeight(weights));
    SumInsert(results, k, failed, SeverityShare(weights, parse));
  }

  /** Label and score do not depend on the order of the results. */
  lemma SeverityPermutation(results: seq<ResultDict>, shuffled: seq<ResultDict>, weights: Weights, parse: Parser)
    requires multiset(results) == multiset(shuffled)
    ensures AggregateSeverity(results, weights, parse) == AggregateSeverity(shuffled, weights, parse)
  {
    SumPermutation(results, shuffled, OkWeight(weights));
    SumPermutation(results, shuffled, SeverityShare(weights, parse));
  }

  // ------------------------------------------------------------- its value

  /** The levels and their scores. */
  lemma ScoreTable()
    ensures ScoreOf("informational") == 0.1 && ScoreOf("low") == 0.25 && ScoreOf("medium") == 0.5
    ensures ScoreOf("high") == 0.75 && ScoreOf("critical") == 1.0
    ensures forall i | 0 <= i < 5 :: SCORES[i] == ScoreOf(LEVELS[i]) && ClosestSeverityLabel(SCORES[i]) == LEVELS[i]
  {
    assert LEVELS[0] == "informational" && LEVELS[1] == "low" && LEVELS[2] == "medium";
    assert LEVELS[3] == "high" && LEVELS[4] == "critical";
    forall i | 0 <= i < 5
      ensures SCORES[i] == ScoreOf(LEVELS[i]) && ClosestSeverityLabel(SCORES[i]) == LEVELS[i]
    {
      ClosestLabelBands(SCORES[i]);
    }
  }

  function SeverityOf(d: ResultDict, parse: Parser): real { NumberOf(Get(d, "severity_score"), parse) }

  /** Without an ok result the severity is informational. When all ok results
      have one score, that is the score, labelled by the nearest level. */
  lemma EqualSeverities(results: seq<ResultDict>, x: real, weights: Weights, parse: Parser)
    requires forall d | d in results && IsOk(d) :: SeverityOf(d, parse) == x
    ensures AggregateSeverity(results, weights, parse)
            == if exists d :: d in results && IsOk(d) then (ClosestSeverityLabel(x), x) else ("informational", 0.1)
  {
    EqualSeveritySum(results, x, weights, parse);
    OkWeightPositive(results, weights);
    var total := Sum(results, OkWeight(weights));
    if total > 0.0 { QuotientIs(Sum(results, SeverityShare(weights, parse)), x, total); }
  }

  lemma OkWeightPositive(results: seq<ResultDict>, weights: Weights)
    ensures Sum(results, OkWeight(weights)) > 0.0 <==> exists d :: d in results && IsOk(d)
  {
    SumAtLeastTerm(results, OkWeight(weights));
    if d :| d in results && IsOk(d) {
      assert OkWeight(weights)(d) > 0.0;
    } else {
      SumZero(results, OkWeight(weights));
    }
  }

  lemma QuotientIs(sum: real, x: real, w: real)
    requires w > 0.0 && sum == x * w
    ensures sum / w == x
  {
  }

  lemma EqualSeverity(d: ResultDict, x: real, weights: Weights, parse: Parser)
    requires IsOk(d) ==> SeverityOf(d, parse) == x
    ensures SeverityShare(weights, parse)(d) == x * OkWeight(weights)(d)
  {
    var w := WeightOf(d, weights);
    assert OkWeight(weights)(d) == if IsOk(d) then w else 0.0;
    assert SeverityShare(weights, parse)(d) == if IsOk(d) then SeverityOf(d, parse) * w else 0.0;
  }

  lemma EqualShares(results: seq<ResultDict>, x: real, weights: Weights, parse: Parser)
    requires forall d | d in results && IsOk(d) :: SeverityOf(d, parse) == x
    ensures Proportional(results, x, OkWeight(weights), SeverityShare(weights, parse))
  {
    forall d | d in results
      ensures SeverityShare(weights, parse)(d) == x * OkWeight(weights)(d)
    {
      EqualSeverity(d, x, weights, parse);
    }
  }

  lemma EqualSeveritySum(results: seq<ResultDict>, x: real, weights: Weights, parse: Parser)
    requires forall d | d in results && IsOk(d) :: SeverityOf(d, parse) == x
    ensures Sum(results, SeverityShare(weights, parse)) == x * Sum(results, OkWeight(weights))
  {
    EqualShares(results, x, weights, parse);
    SumScaled(results, x, OkWeight(weights), SeverityShare(weights, parse));
  }

  /** The mean of two scores under two weights. */
  function Mean(x: real, v: real, y: real, w: real): real
    requires v + w > 0.0
  {
    (x * v + y * w) / (v + w)
  }

  /** Two ok results weigh in by the trust in their engines. */
  lemma TwoSeverities(a: ResultDict, b: ResultDict, weights: Weights, parse: Parser)
    requires IsOk(a) && IsOk(b)
    ensures AggregateSeverity([a, b], weights, parse).1
            == Mean(SeverityOf(a, parse), WeightForEngine(EngineName(a), weights),
                    SeverityOf(b, parse), WeightForEngine(EngineName(b), weights))
  {
    var v, w := WeightForEngine(EngineName(a), weights), WeightForEngine(EngineName(b), weights);
    TwoSeveritySums(a, b, weights, parse);
    MeanIs(Sum([a, b], SeverityShare(weights, parse)), Sum([a, b], OkWeight(weights)),
           SeverityOf(a, parse), v, SeverityOf(b, parse), w);
  }

  lemma MeanIs(sum: real, total: real, x: real, v: real, y: real, w: real)
    requires total > 0.0 && total == v + w && sum == x * v + y * w
    ensures sum / total == Mean(x, v, y, w)
  {
  }

  lemma TwoSeveritySums(a: ResultDict, b: ResultDict, weights: Weights, parse: Parser)
    requires IsOk(a) && IsOk(b)
    ensures var v, w := WeightForEngine(EngineName(a), weights), WeightForEngine(EngineName(b), weights);
            && Sum([a, b], OkWeight(weights)) == v + w
            && Sum([a, b], SeverityShare(weights, parse)) == SeverityOf(a, parse) * v + SeverityOf(b, parse) * w
  {
    SumOfTwo(a, b, OkWeight(weights));
    SumOfTwo(a, b, SeverityShare(weights, parse));
    EqualSeverity(a, SeverityOf(a, parse), weights, parse);
    EqualSeverity(b, SeverityOf(b, parse), weights, parse);
  }

  lemma SumOfTwo<T>(a: T, b: T, f: T -> real)
    ensures Sum([a, b], f) == f(a) + f(b)
  {
    SumSingle(a, f);
    SumSnoc([a], b, f);
    assert [a] + [b] == [a, b];
  }
}
