/** Aggregate confidence (app/services/aggregator/confidence.py). */
module Confidence {
  import opened Sequences
  import opened Strings
  import opened Payloads
  import opened Results

  const TINY := 0.000000001

  function FailedShare(weights: Weights): ResultDict -> real {
    (d: ResultDict) => if IsOk(d) then 0.0 else WeightOf(d, weights)
  }

  function OkShare(weights: Weights): ResultDict -> real {
    (d: ResultDict) => if IsOk(d) then WeightOf(d, weights) else 0.0
  }

  function BaseConfidence(d: ResultDict, parse: Parser): real { NumberOf(Get(d, "confidence"), parse) }

  /** A weight scaled by a confidence. */
  function Scaled(confidence: real, weight: real): (share: real)
    ensures 0.0 <= confidence <= 1.0 && 0.0 <= weight ==> 0.0 <= share <= weight
  {
    assert 0.0 <= confidence <= 1.0 && 0.0 <= weight ==> 0.0 <= confidence * weight <= weight by {
      if 0.0 <= confidence <= 1.0 && 0.0 <= weight { ProductBounds(weight, confidence, weight); }
    }
    confidence * weight
  }

  function ConfidenceShare(weights: Weights, parse: Parser): ResultDict -> real {
    (d: ResultDict) => if IsOk(d) then Scaled(BaseConfidence(d, parse), WeightOf(d, weights)) else 0.0
  }

  /** How far a vote supports the final verdict. */
  function Alignment(vote: string, final: string): (a: real)
    ensures 0.0 <= a <= 1.0
  {
    if vote == final then 1.0
    else if final == "suspicious" && vote == "malicious" then 0.6
    else if final == "suspicious" && vote == "clean" then 0.4
    else 0.0
  }

  function SupportShare(weights: Weights, final: string): ResultDict -> real {
    (d: ResultDict) => if IsOk(d) then WeightOf(d, weights) * Alignment(VoteOf(d), final) else 0.0
  }

  function Max(a: real, b: real): real { if a >= b then a else b }

  function Min(a: real, b: real): real { if a <= b then a else b }

  /** The four totals the loop accumulates. */
  datatype Totals = Totals(weight: real, confidence: real, support: real, failed: real)

  function TotalsOf(results: seq<ResultDict>, final: string, weights: Weights, parse: Parser): Totals {
    Totals(Sum(results, WeightShare(weights)), Sum(results, ConfidenceShare(weights, parse)),
           Sum(results, SupportShare(weights, final)), Sum(results, FailedShare(weights)))
  }

  function AverageConfidence(t: Totals): real
    requires t.weight > 0.0
  {
    t.confidence / t.weight
  }

  function AlignmentRatio(t: Totals): real { t.support / Max(t.weight - t.failed, TINY) }

  /** The error discount before the floor of one quarter. */
  function RawPenalty(t: Totals): real { 1.0 - (t.failed / Max(t.weight, TINY)) * 0.5 }

  /** The product before the closing clamp. */
  function Unclamped(t: Totals): real
    requires t.weight > 0.0
  {
    AverageConfidence(t) * AlignmentRatio(t) * Max(0.25, RawPenalty(t))
  }

  function FromTotals(t: Totals): real {
    if t.weight <= 0.0 then 0.0 else Max(0.0, Min(1.0, Unclamped(t)))
  }

  function Confidence(results: seq<ResultDict>, final: string, weights: Weights, parse: Parser): real {
    FromTotals(TotalsOf(results, final, weights, parse))
  }

  function Support(vote: string, final: string, weight: real): real {
    if vote == final then weight
    else if final == "suspicious" && vote == "malicious" then weight * 0.6
    else if final == "suspicious" && vote == "clean" then weight * 0.4
    else 0.0
  }

  /** The totals with one more result of the given weight. */
  function Added(t: Totals, d: ResultDict, weight: real, final: string, parse: Parser): Totals {
    if !IsOk(d) then t.(weight := t.weight + weight, failed := t.failed + weight)
    else
      Totals(t.weight + weight, t.confidence + Scaled(BaseConfidence(d, parse), weight),
             t.support + Support(VoteOf(d), final, weight), t.failed)
  }

  lemma SharesAre(d: ResultDict, final: string, weights: Weights, parse: Parser)
    ensures WeightShare(weights)(d) == WeightOf(d, weights)
    ensures ConfidenceShare(weights, parse)(d) == if IsOk(d) then Scaled(BaseConfidence(d, parse), WeightOf(d, weights)) else 0.0
    ensures SupportShare(weights, final)(d) == if IsOk(d) then Support(VoteOf(d), final, WeightOf(d, weights)) else 0.0
    ensures FailedShare(weights)(d) == if IsOk(d) then 0.0 else WeightOf(d, weights)
  {
  }

  lemma TotalsTake(results: seq<ResultDict>, i: nat, final: string, weights: Weights, parse: Parser)
    requires i < |results|
    ensures TotalsOf(results[..i + 1], final, weights, parse)
            == Added(TotalsOf(results[..i], final, weights, parse), results[i], WeightOf(results[i], weights), final, parse)
  {
    SumTake(results, i, WeightShare(weights));
    SumTake(results, i, ConfidenceShare(weights, parse));
    SumTake(results, i, SupportShare(weights, final));
    SumTake(results, i, FailedShare(weights));
    SharesAre(results[i], final, weights, parse);
  }

  /** The accumulation loop. */
  method AccumulateTotals(results: seq<ResultDict>, final: string, weights: Weights, parse: Parser) returns (t: Totals)
    requires AllLegible(results, "confidence", parse)
    ensures t == TotalsOf(results, final, weights, parse)
  {
    var totalWeight, confidenceWeighted, supportWeight, errorWeight := 0.0, 0.0, 0.0, 0.0;
    for i := 0 to |results|
      invariant Totals(totalWeight, confidenceWeighted, supportWeight, errorWeight) == TotalsOf(results[..i], final, weights, parse)
    {
      var result := results[i];
      TotalsTake(results, i, final, weights, parse);
      var weight := WeightOf(result, weights);
      totalWeight := totalWeight + weight;
      if !IsOk(result) {
        errorWeight := errorWeight + weight;
        continue;
      }
      confidenceWeighted := confidenceWeighted + Scaled(BaseConfidence(result, parse), weight);
      var vote := VoteOf(result);
      if vote == final {
        supportWeight := supportWeight + weight;
      } else if final == "suspicious" && vote == "malicious" {
        supportWeight := supportWeight + weight * 0.6;
      } else if final == "suspicious" && vote == "clean" {
        supportWeight := supportWeight + weight * 0.4;
      }
    }
    assert results[..|results|] == results;
    t := Totals(totalWeight, confidenceWeighted, supportWeight, errorWeight);
  }

  method WeightedConfidence(results: seq<ResultDict>, final: string, weights: Weights, parse: Parser) returns (confidence: real)
    requires AllLegible(results, "confidence", parse)
    ensures confidence == Confidence(results, final, weights, parse)
  {
    var t := AccumulateTotals(results, final, weights, parse);
    if t.weight <= 0.0 {
      return 0.0;
    }
    var average := t.confidence / t.weight;
    var alignment := t.support / Max(t.weight - t.failed, TINY);
    var penalty := Max(0.25, 1.0 - (t.failed / Max(t.weight, TINY)) * 0.5);
    confidence := Max(0.0, Min(1.0, average * alignment * penalty));
  }

  // ------------------------------------------------------------- bounds

  /** Every confidence that counts lies in [0, 1]. */
  ghost predicate Normalized(results: seq<ResultDict>, parse: Parser) {
    forall d | d in results && IsOk(d) :: 0.0 <= BaseConfidence(d, parse) <= 1.0
  }

  lemma ConfidenceShareBounds(d: ResultDict, weights: Weights, parse: Parser)
    requires IsOk(d) ==> 0.0 <= BaseConfidence(d, parse) <= 1.0
    ensures 0.0 <= ConfidenceShare(weights, parse)(d) <= OkShare(weights)(d)
  {
  }

  lemma SupportShareBounds(d: ResultDict, final: string, weights: Weights)
    ensures 0.0 <= SupportShare(weights, final)(d) <= OkShare(weights)(d)
  {
  }

  /** The totals that do not depend on the confidences, in order of size. */
  lemma WeightBounds(results: seq<ResultDict>, final: string, weights: Weights, parse: Parser)
    ensures var t := TotalsOf(results, final, weights, parse);
            && 0.0 <= t.support <= t.weight - t.failed == Sum(results, OkShare(weights))
            && 0.0 <= t.failed <= t.weight
            && (t.weight > 0.0 <==> results != [])
            && (results == [] ==> t.confidence == 0.0)
  {
    forall d | d in results
      ensures 0.0 <= SupportShare(weights, final)(d) <= OkShare(weights)(d)
    {
      SupportShareBounds(d, final, weights);
    }
    SumLinear(results, OkShare(weights), FailedShare(weights), WeightShare(weights));
    SumAtMost(results, SupportShare(weights, final), OkShare(weights));
    SumAtLeastTerm(results, SupportShare(weights, final));
    SumAtLeastTerm(results, FailedShare(weights));
    SumAtLeastTerm(results, WeightShare(weights));
    SumAtLeastTerm(results, OkShare(weights));
    if results != [] {
      assert results[0] in results;
    }
  }

  /** The totals of normalized results, in order of size. */
  lemma TotalsBounds(results: seq<ResultDict>, final: string, weights: Weights, parse: Parser)
    requires Normalized(results, parse)
    ensures var t := TotalsOf(results, final, weights, parse);
            && 0.0 <= t.confidence <= t.weight - t.failed
            && 0.0 <= t.support <= t.weight - t.failed
            && 0.0 <= t.failed <= t.weight
            && (t.weight > 0.0 <==> results != [])
  {
    WeightBounds(results, final, weights, parse);
    forall d | d in results
      ensures 0.0 <= ConfidenceShare(weights, parse)(d) <= OkShare(weights)(d)
    {
      ConfidenceShareBounds(d, weights, parse);
    }
    SumAtMost(results, ConfidenceShare(weights, parse), OkShare(weights));
    SumAtLeastTerm(results, ConfidenceShare(weights, parse));
  }

  lemma DivideMonotone(x: real, x': real, y: real)
    requires x <= x' && 0.0 < y
    ensures x / y <= x' / y
  {
  }

  /** `x / y <= x' / y'` by cross multiplication. */
  lemma DivideCross(x: real, y: real, x': real, y': real)
    requires 0.0 < y && 0.0 < y' && x * y' <= x' * y
    ensures x / y <= x' / y'
  {
  }

  lemma DivideBounds(x: real, y: real)
    requires 0.0 <= x <= y && 0.0 < y
    ensures 0.0 <= x / y <= 1.0
  {
  }

  lemma DivideExact(x: real, q: real, y: real)
    requires 0.0 < y && x == q * y
    ensures x / y == q
  {
  }

  lemma DivideComplement(x: real, y: real)
    requires 0.0 < y
    ensures (y - x) / y == 1.0 - x / y
  {
    var q := x / y;
    assert q * y == x;
    assert y - x == (1.0 - q) * y;
    DivideExact(y - x, 1.0 - q, y);
  }

  lemma ProductBounds(a: real, b: real, top: real)
    requires 0.0 <= a <= top && 0.0 <= b <= 1.0
    ensures 0.0 <= a * b <= top && 0.0 <= b * a <= top
  {
  }

  lemma ProductMonotone(a: real, a': real, b: real, b': real)
    requires 0.0 <= a <= a' && 0.0 <= b <= b'
    ensures 0.0 <= a * b <= a' * b'
  {
  }

  /** The share of the total weight held by failed engines. */
  function FailedFraction(t: Totals): real
    requires t.weight > 0.0
  {
    t.failed / t.weight
  }

  /** The most confidence a failed share `e` leaves. */
  function Ceiling(e: real): real { (1.0 - e) * (1.0 - e / 2.0) }

  lemma AverageBound(t: Totals)
    requires t.weight > 0.0 && 0.0 <= t.confidence <= t.weight - t.failed
    ensures 0.0 <= AverageConfidence(t) <= 1.0 - FailedFraction(t)
  {
    DivideMonotone(t.confidence, t.weight - t.failed, t.weight);
    DivideMonotone(0.0, t.confidence, t.weight);
    DivideComplement(t.failed, t.weight);
  }

  lemma PenaltyBounds(t: Totals)
    requires 0.0 <= t.failed <= t.weight && 0.0 < t.weight
    ensures 0.5 <= RawPenalty(t) <= 1.0
    ensures t.weight >= TINY ==> RawPenalty(t) == 1.0 - FailedFraction(t) / 2.0
  {
  }

  lemma AlignmentBounds(t: Totals)
    requires 0.0 <= t.support <= t.weight - t.failed && 0.0 <= t.failed && 0.0 < t.weight
    ensures 0.0 <= AlignmentRatio(t) <= 1.0
    ensures t.weight < TINY ==> AlignmentRatio(t) <= 1.0 - FailedFraction(t)
  {
    var ok := t.weight - t.failed;
    DivideBounds(t.support, Max(ok, TINY));
    if t.weight < TINY {
      ProductMonotone(t.support, ok, t.weight, TINY);
      DivideCross(t.support, TINY, ok, t.weight);
      DivideComplement(t.failed, t.weight);
    }
  }

  lemma Product3(a: real, l: real, p: real, x: real, y: real)
    requires 0.0 <= a <= x && 0.0 <= l && 0.0 <= p && l * p <= y && 0.0 <= y
    ensures 0.0 <= a * l * p <= x * y
  {
  }

  /** For normalized results the floor and the clamp never act: the penalty
      stays at one half or more, and the product is already in [0, 1], bounded
      by the failed share `e` as (1 - e)(1 - e/2). */
  lemma ConfidenceNeedsNoClamp(results: seq<ResultDict>, final: string, weights: Weights, parse: Parser)
    requires Normalized(results, parse) && results != []
    ensures var t := TotalsOf(results, final, weights, parse);
            && t.weight > 0.0
            && 0.0 <= FailedFraction(t) <= 1.0
            && RawPenalty(t) >= 0.5
            && 0.0 <= Unclamped(t) <= Ceiling(FailedFraction(t)) <= 1.0
            && Confidence(results, final, weights, parse) == Unclamped(t)
  {
    var t := TotalsOf(results, final, weights, parse);
    TotalsBounds(results, final, weights, parse);
    UnclampedBound(t);
  }

  lemma UnclampedBound(t: Totals)
    requires 0.0 <= t.confidence <= t.weight - t.failed && 0.0 <= t.support <= t.weight - t.failed
    requires 0.0 <= t.failed <= t.weight && 0.0 < t.weight
    ensures 0.0 <= FailedFraction(t) <= 1.0 && RawPenalty(t) >= 0.5
    ensures 0.0 <= Unclamped(t) <= Ceiling(FailedFraction(t)) <= 1.0
  {
    var a, l, p, e := BoundedFactors(t);
    BoundByFraction(a, l, p, e);
  }

  lemma BoundedFactors(t: Totals) returns (a: real, l: real, p: real, e: real)
    requires 0.0 <= t.confidence <= t.weight - t.failed && 0.0 <= t.support <= t.weight - t.failed
    requires 0.0 <= t.failed <= t.weight && 0.0 < t.weight
    ensures e == FailedFraction(t) && 0.0 <= e <= 1.0
    ensures 0.0 <= a <= 1.0 - e && 0.0 <= l && 0.5 <= p == RawPenalty(t) && l * p <= 1.0 - e / 2.0
    ensures Unclamped(t) == a * l * p
  {
    a, l, p, e := AverageConfidence(t), AlignmentRatio(t), RawPenalty(t), FailedFraction(t);
    DivideBounds(t.failed, t.weight);
    AverageBound(t);
    SupportPenaltyBound(t, l, p);
    UnclampedIs(t);
  }

  lemma BoundByFraction(a: real, l: real, p: real, e: real)
    requires 0.0 <= e <= 1.0 && 0.0 <= a <= 1.0 - e && 0.0 <= l && 0.0 <= p && l * p <= 1.0 - e / 2.0
    ensures 0.0 <= a * l * p <= Ceiling(e) <= 1.0
  {
    Product3(a, l, p, 1.0 - e, 1.0 - e / 2.0);
    ProductBounds(1.0 - e, 1.0 - e / 2.0, 1.0 - e);
  }

  lemma SupportPenaltyBound(t: Totals, l: real, p: real)
    requires 0.0 <= t.support <= t.weight - t.failed && 0.0 <= t.failed <= t.weight && 0.0 < t.weight
    requires l == AlignmentRatio(t) && p == RawPenalty(t)
    ensures 0.0 <= l && 0.5 <= p
    ensures l * p <= 1.0 - FailedFraction(t) / 2.0
  {
    DivideBounds(t.failed, t.weight);
    PenaltyBounds(t);
    AlignmentBounds(t);
    if t.weight < TINY {
      ProductBounds(l, p, 1.0 - FailedFraction(t));
    } else {
      ProductBounds(p, l, 1.0 - FailedFraction(t) / 2.0);
    }
  }

  // ------------------------------------------------- failures and order

  lemma InsertedTotals(results: seq<ResultDict>, k: nat, failed: ResultDict, final: string, weights: Weights, parse: Parser)
    requires k <= |results| && !IsOk(failed)
    ensures var t, w := TotalsOf(results, final, weights, parse), WeightOf(failed, weights);
            TotalsOf(results[..k] + [failed] + results[k..], final, weights, parse)
            == Totals(t.weight + w, t.confidence, t.support, t.failed + w)
  {
    SumInsert(results, k, failed, WeightShare(weights));
    SumInsert(results, k, failed, ConfidenceShare(weights, parse));
    SumInsert(results, k, failed, SupportShare(weights, final));
    SumInsert(results, k, failed, FailedShare(weights));
  }

  lemma CrossGrows(f: real, w: real, m: real, m': real)
    requires 0.0 <= f <= m <= m' <= m + w && 0.0 <= w
    ensures f * m' <= (f + w) * m
  {
  }

  lemma PenaltyGrows(t: Totals, w: real)
    requires 0.0 <= t.failed <= t.weight && 0.0 < t.weight && 0.0 < w
    ensures RawPenalty(Totals(t.weight + w, t.confidence, t.support, t.failed + w)) <= RawPenalty(t)
  {
    var m, m' := Max(t.weight, TINY), Max(t.weight + w, TINY);
    assert m <= m' <= m + w;
    CrossGrows(t.failed, w, m, m');
    DivideCross(t.failed, m, t.failed + w, m');
  }

  lemma UnclampedShrinks(t: Totals, w: real)
    requires 0.0 <= t.confidence && 0.0 <= t.support <= t.weight - t.failed
    requires 0.0 <= t.failed <= t.weight && 0.0 < t.weight && 0.0 < w
    ensures Unclamped(Totals(t.weight + w, t.confidence, t.support, t.failed + w)) <= Unclamped(t)
  {
    var t' := Totals(t.weight + w, t.confidence, t.support, t.failed + w);
    FactorsShrink(t, w);
    UnclampedIs(t);
    UnclampedIs(t');
    Product3Monotone(AverageConfidence(t'), AverageConfidence(t), AlignmentRatio(t'), AlignmentRatio(t), RawPenalty(t'), RawPenalty(t));
  }

  lemma FactorsShrink(t: Totals, w: real)
    requires 0.0 <= t.confidence && 0.0 <= t.support <= t.weight - t.failed
    requires 0.0 <= t.failed <= t.weight && 0.0 < t.weight && 0.0 < w
    ensures var t' := Totals(t.weight + w, t.confidence, t.support, t.failed + w);
            && 0.0 <= AverageConfidence(t') <= AverageConfidence(t)
            && 0.0 <= AlignmentRatio(t') == AlignmentRatio(t)
            && 0.25 <= RawPenalty(t') <= RawPenalty(t)
  {
    PenaltyBounds(Totals(t.weight + w, t.confidence, t.support, t.failed + w));
    PenaltyGrows(t, w);
    AlignmentBounds(t);
    AverageShrinks(t, w);
  }

  lemma UnclampedIs(t: Totals)
    requires t.weight > 0.0 && RawPenalty(t) >= 0.25
    ensures Unclamped(t) == AverageConfidence(t) * AlignmentRatio(t) * RawPenalty(t)
  {
  }

  lemma AverageShrinks(t: Totals, w: real)
    requires 0.0 <= t.confidence && 0.0 < t.weight && 0.0 < w
    ensures 0.0 <= t.confidence / (t.weight + w) <= AverageConfidence(t)
  {
  }

  lemma Product3Monotone(a': real, a: real, l': real, l: real, p': real, p: real)
    requires 0.0 <= a' <= a && 0.0 <= l' == l && 0.0 <= p' <= p
    ensures a' * l' * p' <= a * l * p
  {
  }

  /** Adding a failed engine anywhere never raises the confidence. */
  lemma FailureNeverRaisesConfidence(results: seq<ResultDict>, k: nat, failed: ResultDict, final: string, weights: Weights, parse: Parser)
    requires k <= |results| && !IsOk(failed)
    ensures Confidence(results[..k] + [failed] + results[k..], final, weights, parse) <= Confidence(results, final, weights, parse)
  {
    var w := WeightOf(failed, weights);
    var t := TotalsOf(results, final, weights, parse);
    InsertedTotals(results, k, failed, final, weights, parse);
    WeightBounds(results, final, weights, parse);
    if results == [] {
      assert t == Totals(0.0, 0.0, 0.0, 0.0);
      NothingConfident(w);
    } else {
      FromTotalsShrinks(t, w);
    }
  }

  /** A negative sum of confidences is clamped to zero on both sides. */
  lemma FromTotalsShrinks(t: Totals, w: real)
    requires 0.0 <= t.support <= t.weight - t.failed
    requires 0.0 <= t.failed <= t.weight && 0.0 < t.weight && 0.0 < w
    ensures FromTotals(Totals(t.weight + w, t.confidence, t.support, t.failed + w)) <= FromTotals(t)
  {
    var t' := Totals(t.weight + w, t.confidence, t.support, t.failed + w);
    if t.confidence < 0.0 {
      NegativeIsZero(t');
    } else {
      UnclampedShrinks(t, w);
      ClampMonotone(Unclamped(t'), Unclamped(t));
    }
  }

  lemma NegativeIsZero(t: Totals)
    requires t.confidence < 0.0 < t.weight && 0.0 <= t.support
    ensures FromTotals(t) == 0.0
  {
    var a, l, p := AverageConfidence(t), AlignmentRatio(t), Max(0.25, RawPenalty(t));
    DivideMonotone(t.confidence, 0.0, t.weight);
    DivideMonotone(0.0, t.support, Max(t.weight - t.failed, TINY));
    NegativeProduct(a, l, p);
  }

  lemma NegativeProduct(a: real, l: real, p: real)
    requires a <= 0.0 <= l && 0.0 <= p
    ensures a * l * p <= 0.0
  {
    assert a * l <= 0.0;
  }

  lemma ClampMonotone(x: real, y: real)
    requires x <= y
    ensures Max(0.0, Min(1.0, x)) <= Max(0.0, Min(1.0, y))
  {
  }

  lemma NothingConfident(w: real)
    requires w > 0.0
    ensures FromTotals(Totals(w, 0.0, 0.0, w)) == 0.0
  {
  }

  /** The confidence does not depend on the order of the results. */
  lemma ConfidencePermutation(results: seq<ResultDict>, shuffled: seq<ResultDict>, final: string, weights: Weights, parse: Parser)
    requires multiset(results) == multiset(shuffled)
    ensures Confidence(results, final, weights, parse) == Confidence(shuffled, final, weights, parse)
  {
    SumPermutation(results, shuffled, WeightShare(weights));
    SumPermutation(results, shuffled, ConfidenceShare(weights, parse));
    SumPermutation(results, shuffled, SupportShare(weights, final));
    SumPermutation(results, shuffled, FailedShare(weights));
  }

  // ------------------------------------------------------------ closed forms

  /** Weight and failures by kind, and the support a verdict has: for
      "suspicious" the weight voting for it, six tenths of that voting malicious
      and four tenths of that voting clean; otherwise the weight voting for it. */
  lemma SupportByVote(results: seq<ResultDict>, final: string, weights: Weights, parse: Parser)
    ensures var t := TotalsOf(results, final, weights, parse);
            && t.weight == Sum(results, WeightShare(weights))
            && t.failed == WeightOfKind(results, Failed(), weights)
            && t.support ==
               if final == "suspicious" then
                 WeightOfKind(results, Votes("suspicious"), weights)
                 + 0.6 * WeightOfKind(results, Votes("malicious"), weights)
                 + 0.4 * WeightOfKind(results, Votes("clean"), weights)
               else WeightOfKind(results, Votes(final), weights)
  {
    SumOfFilter(results, Failed(), WeightShare(weights), FailedShare(weights));
    if final == "suspicious" {
      SuspiciousSupport(results, weights);
    } else {
      SumOfFilter(results, Votes(final), WeightShare(weights), SupportShare(weights, final));
    }
  }

  function SixTenths(weights: Weights): ResultDict -> real {
    (d: ResultDict) => if IsOk(d) && VoteOf(d) == "malicious" then WeightOf(d, weights) * 0.6 else 0.0
  }

  function FourTenths(weights: Weights): ResultDict -> real {
    (d: ResultDict) => if IsOk(d) && VoteOf(d) == "clean" then WeightOf(d, weights) * 0.4 else 0.0
  }

  function MixedShare(weights: Weights): ResultDict -> real {
    (d: ResultDict) =>
      if IsOk(d) && VoteOf(d) == "malicious" then WeightOf(d, weights) * 0.6
      else if IsOk(d) && VoteOf(d) == "clean" then WeightOf(d, weights) * 0.4
      else 0.0
  }

  lemma SupportParts(d: ResultDict, weights: Weights)
    ensures SupportShare(weights, "suspicious")(d) == FullShare("suspicious", weights)(d) + MixedShare(weights)(d)
  {
    SharesAre(d, "suspicious", weights, _ => None);
  }

  lemma SixTenthsSum(results: seq<ResultDict>, weights: Weights)
    ensures Sum(results, SixTenths(weights)) == 0.6 * WeightOfKind(results, Votes("malicious"), weights)
  {
    assert Proportional(results, 0.6, FullShare("malicious", weights), SixTenths(weights));
    SumScaled(results, 0.6, FullShare("malicious", weights), SixTenths(weights));
    FullShareSum(results, "malicious", weights);
  }

  lemma FourTenthsSum(results: seq<ResultDict>, weights: Weights)
    ensures Sum(results, FourTenths(weights)) == 0.4 * WeightOfKind(results, Votes("clean"), weights)
  {
    assert Proportional(results, 0.4, FullShare("clean", weights), FourTenths(weights));
    SumScaled(results, 0.4, FullShare("clean", weights), FourTenths(weights));
    FullShareSum(results, "clean", weights);
  }

  lemma MixedSum(results: seq<ResultDict>, weights: Weights)
    ensures Sum(results, MixedShare(weights)) == Sum(results, SixTenths(weights)) + Sum(results, FourTenths(weights))
  {
    SumLinear(results, SixTenths(weights), FourTenths(weights), MixedShare(weights));
  }

  lemma SuspiciousSupport(results: seq<ResultDict>, weights: Weights)
    ensures Sum(results, SupportShare(weights, "suspicious"))
            == WeightOfKind(results, Votes("suspicious"), weights)
               + 0.6 * WeightOfKind(results, Votes("malicious"), weights)
               + 0.4 * WeightOfKind(results, Votes("clean"), weights)
  {
    forall d | d in results
      ensures SupportShare(weights, "suspicious")(d) == FullShare("suspicious", weights)(d) + MixedShare(weights)(d)
    {
      SupportParts(d, weights);
    }
    SumLinear(results, FullShare("suspicious", weights), MixedShare(weights), SupportShare(weights, "suspicious"));
    FullShareSum(results, "suspicious", weights);
    MixedSum(results, weights);
    SixTenthsSum(results, weights);
    FourTenthsSum(results, weights);
  }

  lemma EqualShare(d: ResultDict, c: real, weights: Weights, parse: Parser)
    requires IsOk(d) ==> BaseConfidence(d, parse) == c
    ensures ConfidenceShare(weights, parse)(d) == c * OkShare(weights)(d)
  {
    assert ConfidenceShare(weights, parse)(d) == if IsOk(d) then Scaled(BaseConfidence(d, parse), WeightOf(d, weights)) else 0.0;
    assert OkShare(weights)(d) == if IsOk(d) then WeightOf(d, weights) else 0.0;
  }

  /** Equal confidences contribute that share of the weight that did not fail. */
  lemma EqualConfidences(results: seq<ResultDict>, c: real, final: string, weights: Weights, parse: Parser)
    requires forall d | d in results && IsOk(d) :: BaseConfidence(d, parse) == c
    ensures TotalsOf(results, final, weights, parse).confidence == c * Sum(results, OkShare(weights))
    ensures var t := TotalsOf(results, final, weights, parse); Sum(results, OkShare(weights)) == t.weight - t.failed
  {
    KeptWeight(results, final, weights, parse);
    EqualSum(results, c, weights, parse);
  }

  lemma KeptWeight(results: seq<ResultDict>, final: string, weights: Weights, parse: Parser)
    ensures var t := TotalsOf(results, final, weights, parse); t.weight - t.failed == Sum(results, OkShare(weights))
  {
    WeightBounds(results, final, weights, parse);
  }

  lemma EqualSum(results: seq<ResultDict>, c: real, weights: Weights, parse: Parser)
    requires forall d | d in results && IsOk(d) :: BaseConfidence(d, parse) == c
    ensures Sum(results, ConfidenceShare(weights, parse)) == c * Sum(results, OkShare(weights))
  {
    EqualShares(results, c, weights, parse);
    SumScaled(results, c, OkShare(weights), ConfidenceShare(weights, parse));
  }

  lemma EqualShares(results: seq<ResultDict>, c: real, weights: Weights, parse: Parser)
    requires forall d | d in results && IsOk(d) :: BaseConfidence(d, parse) == c
    ensures Proportional(results, c, OkShare(weights), ConfidenceShare(weights, parse))
  {
    forall d | d in results
      ensures ConfidenceShare(weights, parse)(d) == c * OkShare(weights)(d)
    {
      EqualShare(d, c, weights, parse);
    }
  }

  function AtLeastTiny(x: real): (y: real)
    ensures y >= x && y >= 0.000000001 && (y == x || y == 0.000000001)
  {
    Max(x, TINY)
  }

  /** The value itself, denominators cleared: with weight w, failed weight f,
      confidences adding up to k and support s, normalized results give
      k * s * (u - f/2) over w * v * u, where u is w and v is w - f unless that
      is less than a billionth. */
  lemma ConfidenceValue(results: seq<ResultDict>, final: string, weights: Weights, parse: Parser)
    requires Normalized(results, parse)
    ensures var t := TotalsOf(results, final, weights, parse);
            var u, v := AtLeastTiny(t.weight), AtLeastTiny(t.weight - t.failed);
            Confidence(results, final, weights, parse) * (t.weight * v * u) == t.confidence * t.support * (u - t.failed / 2.0)
    ensures results == [] ==> Confidence(results, final, weights, parse) == 0.0
  {
    var t := TotalsOf(results, final, weights, parse);
    WeightBounds(results, final, weights, parse);
    if results != [] {
      ConfidenceNeedsNoClamp(results, final, weights, parse);
      UnclampedValue(t);
    }
  }

  lemma UnclampedValue(t: Totals)
    requires 0.0 <= t.failed <= t.weight && 0.0 < t.weight
    ensures var u, v := AtLeastTiny(t.weight), AtLeastTiny(t.weight - t.failed);
            Unclamped(t) * (t.weight * v * u) == t.confidence * t.support * (u - t.failed / 2.0)
  {
    PenaltyBounds(t);
    UnclampedIs(t);
    ProductOfRatios(t.confidence, t.support, t.weight, AtLeastTiny(t.weight - t.failed), AtLeastTiny(t.weight), t.failed);
  }

  lemma ProductOfRatios(k: real, s: real, w: real, v: real, u: real, f: real)
    requires 0.0 < w && 0.0 < v && 0.0 < u
    ensures (k / w) * (s / v) * (1.0 - (f / u) * 0.5) * (w * v * u) == k * s * (u - f / 2.0)
  {
    var a, b, p := k / w, s / v, 1.0 - (f / u) * 0.5;
    assert a * w == k && b * v == s;
    PenaltyTimes(f, u);
    Regroup(a, b, p, w, v, u);
  }

  lemma PenaltyTimes(f: real, u: real)
    requires 0.0 < u
    ensures (1.0 - (f / u) * 0.5) * u == u - f / 2.0
  {
    var q := f / u;
    assert q * u == f;
  }

  lemma Regroup(a: real, b: real, p: real, w: real, v: real, u: real)
    ensures a * b * p * (w * v * u) == (a * w) * (b * v) * (p * u)
  {
  }

  /** Whatever the results hold, the confidence lies in [0, 1]. */
  lemma ConfidenceIsAShare(results: seq<ResultDict>, final: string, weights: Weights, parse: Parser)
    ensures 0.0 <= Confidence(results, final, weights, parse) <= 1.0
  {
  }

  const TWO_TO_ONE: Weights := map["clamav" := 0.4, "yara" := 0.3, "windows-defender" := 0.3]

  function Sure(engine: string, verdict: string): (d: ResultDict) {
    map["engine_key" := Str(engine), "status" := Str("ok"), "verdict" := Str(verdict), "confidence" := Num(1.0)]
  }

  /** One engine of weight .4 sure of malice and two of weight .3 sure of none:
      a suspicious job is .4 * .6 + .6 * .4 = .48 sure. */
  lemma SplitJobIsHalfSure(parse: Parser)
    ensures Confidence([Sure("clamav", "malicious"), Sure("yara", "clean"), Sure("windows-defender", "clean")],
                       "suspicious", TWO_TO_ONE, parse) == 0.48
  {
    SplitJobTotals(parse);
  }

  lemma SplitJobTotals(parse: Parser)
    ensures TotalsOf([Sure("clamav", "malicious"), Sure("yara", "clean"), Sure("windows-defender", "clean")],
                     "suspicious", TWO_TO_ONE, parse) == Totals(1.0, 1.0, 0.48, 0.0)
  {
    var a, b, c := Sure("clamav", "malicious"), Sure("yara", "clean"), Sure("windows-defender", "clean");
    SureSnoc([], Totals(0.0, 0.0, 0.0, 0.0), "clamav", "malicious", 0.4, parse);
    assert [] + [a] == [a] && [a] + [b] == [a, b] && [a, b] + [c] == [a, b, c];
    SureSnoc([a], Totals(0.4, 0.4, 0.24, 0.0), "yara", "clean", 0.3, parse);
    SureSnoc([a, b], Totals(0.7, 0.7, 0.36, 0.0), "windows-defender", "clean", 0.3, parse);
  }

  lemma SureSnoc(results: seq<ResultDict>, t: Totals, engine: string, verdict: string, w: real, parse: Parser)
    requires TotalsOf(results, "suspicious", TWO_TO_ONE, parse) == t
    requires engine in TWO_TO_ONE && w == TWO_TO_ONE[engine] && verdict in {"malicious", "clean"}
    ensures TotalsOf(results + [Sure(engine, verdict)], "suspicious", TWO_TO_ONE, parse)
            == Totals(t.weight + w, t.confidence + w, t.support + (if verdict == "clean" then w * 0.4 else w * 0.6), t.failed)
  {
    TotalsSnoc(results, Sure(engine, verdict), "suspicious", TWO_TO_ONE, parse);
    SureAdds(t, engine, verdict, w, parse);
  }

  lemma TotalsSnoc(results: seq<ResultDict>, d: ResultDict, final: string, weights: Weights, parse: Parser)
    ensures TotalsOf(results + [d], final, weights, parse)
            == Added(TotalsOf(results, final, weights, parse), d, WeightOf(d, weights), final, parse)
  {
    var all := results + [d];
    assert all[..|results|] == results && all[..|results| + 1] == all;
    TotalsTake(all, |results|, final, weights, parse);
  }

  lemma SureAdds(t: Totals, engine: string, verdict: string, w: real, parse: Parser)
    requires engine in TWO_TO_ONE && w == TWO_TO_ONE[engine] && verdict in {"malicious", "clean"}
    ensures var d := Sure(engine, verdict);
            && WeightOf(d, TWO_TO_ONE) == w
            && Added(t, d, w, "suspicious", parse)
               == Totals(t.weight + w, t.confidence + w, t.support + (if verdict == "clean" then w * 0.4 else w * 0.6), t.failed)
  {
    var d := Sure(engine, verdict);
    assert Lower("ok") == "ok" && Lower("malicious") == "malicious" && Lower("clean") == "clean";
    assert Lower("clamav") == "clamav" && Lower("yara") == "yara" && Lower("windows-defender") == "windows-defender";
    assert IsOk(d) && VoteOf(d) == verdict && BaseConfidence(d, parse) == 1.0 && EngineName(d) == engine;
  }
}
