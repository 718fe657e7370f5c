/** Weighted voting across engines (app/services/aggregator/voting.py). */
module Voting {
  import opened Sequences
  import opened Strings
  import opened Payloads
  import opened Results

  // --------------------------------------------------------------- tallies

  function MaliciousShare(weights: Weights): ResultDict -> real {
    (d: ResultDict) => if IsOk(d) && VoteOf(d) == "malicious" then WeightOf(d, weights) else 0.0
  }

  function CleanShare(weights: Weights): ResultDict -> real {
    (d: ResultDict) => if IsOk(d) && VoteOf(d) == "clean" then WeightOf(d, weights) else 0.0
  }

  /** A suspicious vote counts in full, any unrecognised one counts half. */
  function SuspiciousShare(weights: Weights): ResultDict -> real {
    (d: ResultDict) =>
      if !IsOk(d) || VoteOf(d) == "malicious" || VoteOf(d) == "clean" then 0.0
      else if VoteOf(d) == "suspicious" then WeightOf(d, weights)
      else WeightOf(d, weights) * 0.5
  }

  function ErrorShare(weights: Weights): ResultDict -> real {
    (d: ResultDict) => if IsOk(d) then 0.0 else WeightOf(d, weights)
  }

  /** The threshold cascade over the vote ratios. */
  function Cascade(malicious: real, clean: real, suspicious: real, errors: real): string {
    var total := malicious + clean + suspicious;
    if total == 0.0 then
      if errors != 0.0 then "error" else "unknown"
    else
      var m, c, s := malicious / total, clean / total, suspicious / total;
      if m >= 0.5 then "malicious"
      else if c >= 0.6 && m < 0.3 then "clean"
      else if s >= 0.3 || (m >= 0.35 && c >= 0.35) then "suspicious"
      else if malicious >= clean then "malicious"
      else "clean"
  }

  function Verdict(results: seq<ResultDict>, weights: Weights): string {
    Cascade(Sum(results, MaliciousShare(weights)), Sum(results, CleanShare(weights)),
            Sum(results, SuspiciousShare(weights)), Sum(results, ErrorShare(weights)))
  }

  datatype Tally = Tally(malicious: real, clean: real, suspicious: real, errors: real)

  function TallyOf(results: seq<ResultDict>, weights: Weights): Tally {
    Tally(Sum(results, MaliciousShare(weights)), Sum(results, CleanShare(weights)),
          Sum(results, SuspiciousShare(weights)), Sum(results, ErrorShare(weights)))
  }

  /** A tally with one more result of the given weight. */
  function Counted(t: Tally, d: ResultDict, weight: real): Tally {
    if !IsOk(d) then t.(errors := t.errors + weight)
    else if VoteOf(d) == "malicious" then t.(malicious := t.malicious + weight)
    else if VoteOf(d) == "suspicious" then t.(suspicious := t.suspicious + weight)
    else if VoteOf(d) == "clean" then t.(clean := t.clean + weight)
    else t.(suspicious := t.suspicious + weight * 0.5)
  }

  lemma TallyTake(results: seq<ResultDict>, i: nat, weights: Weights)
    requires i < |results|
    ensures TallyOf(results[..i + 1], weights)
            == Counted(TallyOf(results[..i], weights), results[i], WeightOf(results[i], weights))
  {
    SumTake(results, i, MaliciousShare(weights));
    SumTake(results, i, CleanShare(weights));
    SumTake(results, i, SuspiciousShare(weights));
    SumTake(results, i, ErrorShare(weights));
  }

  /** The voting loop. */
  method TallyVotes(results: seq<ResultDict>, weights: Weights) returns (votes: map<string, real>, errorWeight: real)
    ensures votes.Keys == {"malicious", "clean", "suspicious"}
    ensures Tally(votes["malicious"], votes["clean"], votes["suspicious"], errorWeight) == TallyOf(results, weights)
  {
    votes := map["malicious" := 0.0, "clean" := 0.0, "suspicious" := 0.0];
    errorWeight := 0.0;
    for i := 0 to |results|
      invariant votes.Keys == {"malicious", "clean", "suspicious"}
      invariant Tally(votes["malicious"], votes["clean"], votes["suspicious"], errorWeight) == TallyOf(results[..i], weights)
    {
      var result := results[i];
      TallyTake(results, i, weights);
      var weight := WeightOf(result, weights);
      if !IsOk(result) {
        errorWeight := errorWeight + weight;
        continue;
      }
      var vote := VoteOf(result);
      if vote == "malicious" {
        votes := votes["malicious" := votes["malicious"] + weight];
      } else if vote == "suspicious" {
        votes := votes["suspicious" := votes["suspicious"] + weight];
      } else if vote == "clean" {
        votes := votes["clean" := votes["clean"] + weight];
      } else {
        votes := votes["suspicious" := votes["suspicious"] + weight * 0.5];
      }
    }
    assert results[..|results|] == results;
  }

  method WeightedVerdict(results: seq<ResultDict>, weights: Weights) returns (verdict: string)
    ensures verdict == Verdict(results, weights)
  {
    var votes, errorWeight := TallyVotes(results, weights);
    var total := votes["malicious"] + votes["clean"] + votes["suspicious"];
    if total == 0.0 {
      return if errorWeight != 0.0 then "error" else "unknown";
    }
    var m, c, s := votes["malicious"] / total, votes["clean"] / total, votes["suspicious"] / total;
    if m >= 0.5 {
      return "malicious";
    }
    if c >= 0.6 && m < 0.3 {
      return "clean";
    }
    if s >= 0.3 || (m >= 0.35 && c >= 0.35) {
      return "suspicious";
    }
    verdict := if votes["malicious"] >= votes["clean"] then "malicious" else "clean";
  }

  // ----------------------------------------------------- the vote simplex

  lemma RatioAtLeast(x: real, total: real, k: real)
    requires total > 0.0
    ensures x / total >= k <==> x >= k * total
  {
  }

  predicate InCleanRegion(m: real, c: real, s: real) {
    var t := m + c + s;
    (c >= 0.6 * t && m < 0.3 * t) || (m < 0.35 * t && s < 0.3 * t)
  }

  predicate InMaliciousRegion(m: real, c: real, s: real) {
    var t := m + c + s;
    m >= 0.5 * t || (c < 0.35 * t && s < 0.3 * t)
  }

  /** The ordered cascade, with its closing comparison, is a partition of the
      vote simplex into two unions of half-planes and the rest. */
  lemma CascadeRegions(m: real, c: real, s: real, e: real)
    requires m >= 0.0 && c >= 0.0 && s >= 0.0 && m + c + s > 0.0
    ensures Cascade(m, c, s, e) == "clean" <==> InCleanRegion(m, c, s)
    ensures Cascade(m, c, s, e) == "malicious" <==> InMaliciousRegion(m, c, s)
    ensures Cascade(m, c, s, e) == "suspicious" <==> !InCleanRegion(m, c, s) && !InMaliciousRegion(m, c, s)
    ensures !(InCleanRegion(m, c, s) && InMaliciousRegion(m, c, s))
  {
    var t := m + c + s;
    RatioAtLeast(m, t, 0.5);
    RatioAtLeast(c, t, 0.6);
    RatioAtLeast(m, t, 0.3);
    RatioAtLeast(s, t, 0.3);
    RatioAtLeast(m, t, 0.35);
    RatioAtLeast(c, t, 0.35);
  }

  function Rank(verdict: string): int {
    if verdict == "malicious" then 2 else if verdict == "suspicious" then 1 else 0
  }

  lemma SharesNonnegative(results: seq<ResultDict>, weights: Weights)
    ensures Sum(results, MaliciousShare(weights)) >= 0.0
    ensures Sum(results, CleanShare(weights)) >= 0.0
    ensures Sum(results, SuspiciousShare(weights)) >= 0.0
    ensures Sum(results, ErrorShare(weights)) >= 0.0
  {
    SumAtLeastTerm(results, MaliciousShare(weights));
    SumAtLeastTerm(results, CleanShare(weights));
    SumAtLeastTerm(results, SuspiciousShare(weights));
    SumAtLeastTerm(results, ErrorShare(weights));
  }

  function VoteTotal(results: seq<ResultDict>, weights: Weights): real {
    Sum(results, MaliciousShare(weights)) + Sum(results, CleanShare(weights)) + Sum(results, SuspiciousShare(weights))
  }

  lemma OkMeansVotes(results: seq<ResultDict>, weights: Weights)
    ensures VoteTotal(results, weights) > 0.0 <==> SomeOk(results)
    ensures VoteTotal(results, weights) >= 0.0
  {
    SharesNonnegative(results, weights);
    if d :| d in results && IsOk(d) {
      SumAtLeastTerm(results, MaliciousShare(weights));
      SumAtLeastTerm(results, CleanShare(weights));
      SumAtLeastTerm(results, SuspiciousShare(weights));
      assert MaliciousShare(weights)(d) > 0.0 || CleanShare(weights)(d) > 0.0 || SuspiciousShare(weights)(d) > 0.0;
    } else {
      SumZero(results, MaliciousShare(weights));
      SumZero(results, CleanShare(weights));
      SumZero(results, SuspiciousShare(weights));
    }
  }

  lemma ErrorsCounted(results: seq<ResultDict>, weights: Weights)
    ensures Sum(results, ErrorShare(weights)) > 0.0 <==> exists d :: d in results && !IsOk(d)
  {
    SumAtLeastTerm(results, ErrorShare(weights));
    if d :| d in results && !IsOk(d) {
      assert ErrorShare(weights)(d) > 0.0;
    } else {
      SumZero(results, ErrorShare(weights));
    }
  }

  /** No verdict without a vote: "unknown" for no results at all, "error" when
      every engine failed, and a real verdict as soon as one engine is ok. */
  lemma VerdictKinds(results: seq<ResultDict>, weights: Weights)
    ensures Verdict(results, weights) == "unknown" <==> results == []
    ensures Verdict(results, weights) == "error" <==> results != [] && !SomeOk(results)
    ensures Verdict(results, weights) in {"malicious", "suspicious", "clean"} <==> SomeOk(results)
  {
    OkMeansVotes(results, weights);
    ErrorsCounted(results, weights);
    SharesNonnegative(results, weights);
    if results != [] && !SomeOk(results) {
      assert results[0] in results;
    }
    if SomeOk(results) {
      CascadeRegions(Sum(results, MaliciousShare(weights)), Sum(results, CleanShare(weights)),
                     Sum(results, SuspiciousShare(weights)), Sum(results, ErrorShare(weights)));
    }
  }

  // -------------------------------------------------------- changing votes

  /** The same ok engine, voting differently. */
  ghost predicate Revote(results: seq<ResultDict>, i: nat, from: string, to: string, changed: ResultDict) {
    && i < |results|
    && IsOk(results[i]) && VoteOf(results[i]) == from
    && IsOk(changed) && VoteOf(changed) == to && EngineName(changed) == EngineName(results[i])
  }

  lemma RevoteSums(results: seq<ResultDict>, i: nat, from: string, to: string, changed: ResultDict, weights: Weights)
    requires Revote(results, i, from, to, changed)
    requires from in {"malicious", "clean", "suspicious"} && to in {"malicious", "clean", "suspicious"} && from != to
    ensures var w := WeightOf(changed, weights);
            var results' := results[i := changed];
            && Sum(results', MaliciousShare(weights)) == Sum(results, MaliciousShare(weights))
                 + (if to == "malicious" then w else 0.0) - (if from == "malicious" then w else 0.0)
            && Sum(results', CleanShare(weights)) == Sum(results, CleanShare(weights))
                 + (if to == "clean" then w else 0.0) - (if from == "clean" then w else 0.0)
            && Sum(results', SuspiciousShare(weights)) == Sum(results, SuspiciousShare(weights))
                 + (if to == "suspicious" then w else 0.0) - (if from == "suspicious" then w else 0.0)
  {
    SumReplace(results, i, changed, MaliciousShare(weights));
    SumReplace(results, i, changed, CleanShare(weights));
    SumReplace(results, i, changed, SuspiciousShare(weights));
  }

  /** The verdict of a list with some ok result, by region. */
  lemma VerdictRegions(results: seq<ResultDict>, weights: Weights)
    requires SomeOk(results)
    ensures var m, c, s := Sum(results, MaliciousShare(weights)), Sum(results, CleanShare(weights)),
                           Sum(results, SuspiciousShare(weights));
            && m >= 0.0 && c >= 0.0 && s >= 0.0 && m + c + s > 0.0
            && (Verdict(results, weights) == "clean" <==> InCleanRegion(m, c, s))
            && (Verdict(results, weights) == "malicious" <==> InMaliciousRegion(m, c, s))
            && (Verdict(results, weights) == "suspicious" <==> !InCleanRegion(m, c, s) && !InMaliciousRegion(m, c, s))
  {
    OkMeansVotes(results, weights);
    SharesNonnegative(results, weights);
    CascadeRegions(Sum(results, MaliciousShare(weights)), Sum(results, CleanShare(weights)),
                   Sum(results, SuspiciousShare(weights)), Sum(results, ErrorShare(weights)));
  }

  lemma RevoteStillOk(results: seq<ResultDict>, i: nat, from: string, to: string, changed: ResultDict)
    requires Revote(results, i, from, to, changed)
    ensures SomeOk(results) && SomeOk(results[i := changed])
  {
    assert results[i] in results;
    assert results[i := changed][i] == changed;
  }

  /** One engine turning from clean to malicious never lowers the verdict. */
  lemma CleanToMaliciousNeverLowers(results: seq<ResultDict>, i: nat, changed: ResultDict, weights: Weights)
    requires Revote(results, i, "clean", "malicious", changed)
    ensures Rank(Verdict(results[i := changed], weights)) >= Rank(Verdict(results, weights))
  {
    RevoteStillOk(results, i, "clean", "malicious", changed);
    RevoteSums(results, i, "clean", "malicious", changed, weights);
    VerdictRegions(results, weights);
    VerdictRegions(results[i := changed], weights);
  }

  /** One engine turning from clean to suspicious never clears a job. */
  lemma CleanToSuspiciousNeverClears(results: seq<ResultDict>, i: nat, changed: ResultDict, weights: Weights)
    requires Revote(results, i, "clean", "suspicious", changed)
    ensures Verdict(results[i := changed], weights) == "clean" ==> Verdict(results, weights) == "clean"
  {
    RevoteStillOk(results, i, "clean", "suspicious", changed);
    RevoteSums(results, i, "clean", "suspicious", changed, weights);
    VerdictRegions(results, weights);
    VerdictRegions(results[i := changed], weights);
  }

  /** Turning from suspicious to malicious is not monotone: it lowers the
      verdict exactly when suspicion alone carried it and neither the lost
      suspicion nor the gained malice reaches its threshold any more. */
  lemma SuspiciousToMaliciousLowers(results: seq<ResultDict>, i: nat, changed: ResultDict, weights: Weights)
    requires Revote(results, i, "suspicious", "malicious", changed)
    ensures var m, c, s := Sum(results, MaliciousShare(weights)), Sum(results, CleanShare(weights)),
                           Sum(results, SuspiciousShare(weights));
            var t, w := m + c + s, WeightOf(changed, weights);
            Rank(Verdict(results[i := changed], weights)) < Rank(Verdict(results, weights))
            <==> s >= 0.3 * t && s - w < 0.3 * t && m + w < 0.35 * t && !(c >= 0.6 * t && m < 0.3 * t)
  {
    RevoteStillOk(results, i, "suspicious", "malicious", changed);
    RevoteSums(results, i, "suspicious", "malicious", changed, weights);
    VerdictRegions(results, weights);
    VerdictRegions(results[i := changed], weights);
  }

  /** A malicious share of 35 percent or more is never reported clean. */
  lemma StrongMaliceIsNeverClean(results: seq<ResultDict>, weights: Weights)
    requires SomeOk(results)
    requires Sum(results, MaliciousShare(weights)) >= 0.35 * VoteTotal(results, weights)
    ensures Verdict(results, weights) != "clean"
  {
    VerdictRegions(results, weights);
  }

  // ------------------------------------------------- failures and order

  lemma InsertedSums(results: seq<ResultDict>, k: nat, failed: ResultDict, weights: Weights)
    requires k <= |results| && !IsOk(failed)
    ensures var results' := results[..k] + [failed] + results[k..];
            && Sum(results', MaliciousShare(weights)) == Sum(results, MaliciousShare(weights))
            && Sum(results', CleanShare(weights)) == Sum(results, CleanShare(weights))
            && Sum(results', SuspiciousShare(weights)) == Sum(results, SuspiciousShare(weights))
            && Sum(results', ErrorShare(weights)) == Sum(results, ErrorShare(weights)) + WeightOf(failed, weights)
  {
    SumInsert(results, k, failed, MaliciousShare(weights));
    SumInsert(results, k, failed, CleanShare(weights));
    SumInsert(results, k, failed, SuspiciousShare(weights));
    SumInsert(results, k, failed, ErrorShare(weights));
  }

  /** Adding a failed engine anywhere leaves the verdict alone exactly when
      some engine is ok, or some had failed already. */
  lemma FailureKeepsVerdict(results: seq<ResultDict>, k: nat, failed: ResultDict, weights: Weights)
    requires k <= |results| && !IsOk(failed)
    ensures Verdict(results[..k] + [failed] + results[k..], weights) == Verdict(results, weights) <==> results != []
  {
    InsertedSums(results, k, failed, weights);
    OkMeansVotes(results, weights);
    VerdictKinds(results, weights);
    var results' := results[..k] + [failed] + results[k..];
    VerdictKinds(results', weights);
    assert forall d :: d in results' <==> d == failed || d in results by {
      assert results == results[..k] + results[k..];
    }
  }

  /** The verdict does not depend on the order of the results. */
  lemma VerdictPermutation(results: seq<ResultDict>, shuffled: seq<ResultDict>, weights: Weights)
    requires multiset(results) == multiset(shuffled)
    ensures Verdict(results, weights) == Verdict(shuffled, weights)
  {
    SumPermutation(results, shuffled, MaliciousShare(weights));
    SumPermutation(results, shuffled, CleanShare(weights));
    SumPermutation(results, shuffled, SuspiciousShare(weights));
    SumPermutation(results, shuffled, ErrorShare(weights));
  }

  /** The tallies by kind: the weights voting malicious and clean, the weight
      voting suspicious with half of that voting anything else, and the weight
      of the failed results. */
  lemma TalliesByVote(results: seq<ResultDict>, weights: Weights)
    ensures Sum(results, MaliciousShare(weights)) == WeightOfKind(results, Votes("malicious"), weights)
    ensures Sum(results, CleanShare(weights)) == WeightOfKind(results, Votes("clean"), weights)
    ensures Sum(results, SuspiciousShare(weights))
            == WeightOfKind(results, Votes("suspicious"), weights) + 0.5 * WeightOfKind(results, VotesOtherwise(), weights)
    ensures Sum(results, ErrorShare(weights)) == WeightOfKind(results, Failed(), weights)
  {
    SumOfFilter(results, Votes("malicious"), WeightShare(weights), MaliciousShare(weights));
    SumOfFilter(results, Votes("clean"), WeightShare(weights), CleanShare(weights));
    SumOfFilter(results, Failed(), WeightShare(weights), ErrorShare(weights));
    SuspiciousByVote(results, weights);
  }

  function OddShare(weights: Weights): ResultDict -> real {
    (d: ResultDict) => if IsOk(d) && VoteOf(d) !in {"malicious", "suspicious", "clean"} then WeightOf(d, weights) else 0.0
  }

  function HalfShare(weights: Weights): ResultDict -> real {
    (d: ResultDict) => if IsOk(d) && VoteOf(d) !in {"malicious", "suspicious", "clean"} then WeightOf(d, weights) * 0.5 else 0.0
  }

  lemma SuspiciousParts(d: ResultDict, weights: Weights)
    ensures SuspiciousShare(weights)(d) == FullShare("suspicious", weights)(d) + HalfShare(weights)(d)
  {
  }

  lemma HalfSum(results: seq<ResultDict>, weights: Weights)
    ensures Sum(results, HalfShare(weights)) == 0.5 * WeightOfKind(results, VotesOtherwise(), weights)
  {
    assert Proportional(results, 0.5, OddShare(weights), HalfShare(weights));
    SumScaled(results, 0.5, OddShare(weights), HalfShare(weights));
    SumOfFilter(results, VotesOtherwise(), WeightShare(weights), OddShare(weights));
  }

  lemma SuspiciousByVote(results: seq<ResultDict>, weights: Weights)
    ensures Sum(results, SuspiciousShare(weights))
            == WeightOfKind(results, Votes("suspicious"), weights) + 0.5 * WeightOfKind(results, VotesOtherwise(), weights)
  {
    forall d | d in results
      ensures SuspiciousShare(weights)(d) == FullShare("suspicious", weights)(d) + HalfShare(weights)(d)
    {
      SuspiciousParts(d, weights);
    }
    SumLinear(results, FullShare("suspicious", weights), HalfShare(weights), SuspiciousShare(weights));
    FullShareSum(results, "suspicious", weights);
    HalfSum(results, weights);
  }

  /** An ok result with a verdict. */
  function Answer(engine: string, verdict: string): (d: ResultDict)
    ensures IsOk(d) && EngineName(d) == engine
    ensures verdict != "" ==> VoteOf(d) == Lower(verdict)
  {
    assert Lower("ok") == "ok";
    map["engine_key" := Str(engine), "status" := Str("ok"), "verdict" := Str(verdict)]
  }

  lemma TallyOfThree(a: ResultDict, b: ResultDict, c: ResultDict, weights: Weights)
    ensures TallyOf([a, b, c], weights)
            == Counted(Counted(Counted(Tally(0.0, 0.0, 0.0, 0.0), a, WeightOf(a, weights)), b, WeightOf(b, weights)),
                       c, WeightOf(c, weights))
  {
    var results := [a, b, c];
    assert results[..0] == [] && results[..3] == results;
    TallyTake(results, 0, weights);
    TallyTake(results, 1, weights);
    TallyTake(results, 2, weights);
  }

  lemma AnswerCounts(t: Tally, engine: string, weight: real)
    ensures Counted(t, Answer(engine, "malicious"), weight) == t.(malicious := t.malicious + weight)
    ensures Counted(t, Answer(engine, "suspicious"), weight) == t.(suspicious := t.suspicious + weight)
    ensures Counted(t, Answer(engine, "clean"), weight) == t.(clean := t.clean + weight)
  {
    assert Lower("clean") == "clean" && Lower("suspicious") == "suspicious" && Lower("malicious") == "malicious";
  }

  const UNEVEN: Weights := map["clamav" := 0.3, "yara" := 0.2, "windows-defender" := 0.5]

  lemma UnevenWeights(verdict: string)
    ensures WeightOf(Answer("clamav", verdict), UNEVEN) == 0.3
    ensures WeightOf(Answer("yara", verdict), UNEVEN) == 0.2
    ensures WeightOf(Answer("windows-defender", verdict), UNEVEN) == 0.5
  {
    assert Lower("clamav") == "clamav" && Lower("yara") == "yara" && Lower("windows-defender") == "windows-defender";
  }

  /** With the weights above, two suspicions and one clean answer make a job
      suspicious, and once the first of them says malicious it is clean. */
  lemma SuspiciousToMaliciousExample()
    ensures var yara, defender := Answer("yara", "suspicious"), Answer("windows-defender", "clean");
            && Verdict([Answer("clamav", "suspicious"), yara, defender], UNEVEN) == "suspicious"
            && Verdict([Answer("clamav", "malicious"), yara, defender], UNEVEN) == "clean"
  {
    AnswerCounts(Tally(0.0, 0.0, 0.0, 0.0), "clamav", 0.3);
    ThreeAnswers("suspicious", Tally(0.0, 0.0, 0.3, 0.0));
    ThreeAnswers("malicious", Tally(0.3, 0.0, 0.0, 0.0));
  }

  lemma ThreeAnswers(first: string, t: Tally)
    requires t == Counted(Tally(0.0, 0.0, 0.0, 0.0), Answer("clamav", first), 0.3)
    ensures TallyOf([Answer("clamav", first), Answer("yara", "suspicious"), Answer("windows-defender", "clean")], UNEVEN)
            == t.(suspicious := t.suspicious + 0.2, clean := t.clean + 0.5)
  {
    TallyOfThree(Answer("clamav", first), Answer("yara", "suspicious"), Answer("windows-defender", "clean"), UNEVEN);
    UnevenWeights(first);
    UnevenWeights("suspicious");
    UnevenWeights("clean");
    AnswerCounts(t, "yara", 0.2);
    AnswerCounts(t.(suspicious := t.suspicious + 0.2), "windows-defender", 0.5);
  }
}
