/** Family and category hints from signatures (app/services/aggregator/family_detection.py). */
module Families {
  import opened Sequences
  import opened Payloads

  predicate IsDelimiter(c: char) { c in {':', '/', '.', '_', '-'} }

  /** The pieces between delimiters, empty ones included. */
  function Split(s: string): (parts: seq<string>)
    ensures |parts| >= 1
  {
    if s == [] then [""]
    else
      var parts := Split(s[..|s| - 1]);
      var c := s[|s| - 1];
      if IsDelimiter(c) then parts + [""]
      else parts[|parts| - 1 := parts[|parts| - 1] + [c]]
  }

  function NonEmpty(): string -> bool { (s: string) => s != "" }

  function Tokenize(signature: string): seq<string> { Filter(Split(signature), NonEmpty()) }

  function NotDelimiter(): char -> bool { (c: char) => !IsDelimiter(c) }

  /** Splitting loses only delimiters, and no piece holds one. */
  lemma {:induction false} SplitMeaning(s: string)
    ensures Flatten(Split(s)) == Filter(s, NotDelimiter())
    ensures forall part, c | part in Split(s) && c in part :: !IsDelimiter(c)
  {
    if s == [] {
      assert [""][..0] == [];
    } else {
      var init, c := s[..|s| - 1], s[|s| - 1];
      SplitMeaning(init);
      var parts := Split(init);
      if IsDelimiter(c) {
        assert (parts + [""])[..|parts|] == parts;
      } else {
        LastPieceGrows(parts, c);
      }
    }
  }

  lemma LastPieceGrows(parts: seq<string>, c: char)
    requires parts != [] && !IsDelimiter(c)
    requires forall part, d | part in parts && d in part :: !IsDelimiter(d)
    ensures var grown := parts[|parts| - 1 := parts[|parts| - 1] + [c]];
            && Flatten(grown) == Flatten(parts) + [c]
            && forall part, d | part in grown && d in part :: !IsDelimiter(d)
  {
  }

  lemma {:induction false} DropEmpty(parts: seq<string>)
    ensures Flatten(Filter(parts, NonEmpty())) == Flatten(parts)
  {
    if parts != [] {
      var init, last := parts[..|parts| - 1], parts[|parts| - 1];
      DropEmpty(init);
      assert parts == init + [last];
      FilterSnoc(init, last, NonEmpty());
      assert (Filter(init, NonEmpty()) + [last])[..|Filter(init, NonEmpty())|] == Filter(init, NonEmpty());
      if last == "" {
        assert Flatten(init) + "" == Flatten(init);
      }
    }
  }

  /** The pieces with one separator between neighbours. */
  function Join(parts: seq<string>, separators: string): string
    requires |parts| == |separators| + 1
  {
    var n := |separators|;
    if n == 0 then parts[0] else Join(parts[..n], separators[..n - 1]) + [separators[n - 1]] + parts[n]
  }

  /** Join the pieces with the delimiters they were cut at and the text is back. */
  lemma {:induction false} JoinOfSplit(s: string)
    ensures |Split(s)| == |Filter(s, IsDelimiter)| + 1
    ensures Join(Split(s), Filter(s, IsDelimiter)) == s
  {
    if s != [] {
      var init, c := s[..|s| - 1], s[|s| - 1];
      var parts, cuts := Split(init), Filter(init, IsDelimiter);
      JoinOfSplit(init);
      FilterSnoc(init, c, IsDelimiter);
      assert s == init + [c];
      if IsDelimiter(c) {
        JoinAppends(parts, cuts, c);
      } else {
        JoinGrows(parts, cuts, c);
      }
    }
  }

  lemma JoinAppends(parts: seq<string>, cuts: string, c: char)
    requires |parts| == |cuts| + 1
    ensures Join(parts + [""], cuts + [c]) == Join(parts, cuts) + [c]
  {
    assert (parts + [""])[..|parts|] == parts;
    assert (cuts + [c])[..|cuts|] == cuts;
  }

  lemma JoinGrows(parts: seq<string>, cuts: string, c: char)
    requires |parts| == |cuts| + 1
    ensures Join(parts[|cuts| := parts[|cuts|] + [c]], cuts) == Join(parts, cuts) + [c]
  {
    var n := |cuts|;
    assert parts[n := parts[n] + [c]][..n] == parts[..n];
  }

  predicate NoDelimiter(s: string) { forall c | c in s :: !IsDelimiter(c) }

  /** Appending a delimiter and a piece appends that piece to the split. */
  lemma {:induction false} SplitAppends(s: string, c: char, piece: string)
    requires IsDelimiter(c) && NoDelimiter(piece)
    ensures Split(s + [c] + piece) == Split(s) + [piece]
  {
    var t := s + [c] + piece;
    if piece == "" {
      assert t[..|t| - 1] == s;
    } else {
      var init := piece[..|piece| - 1];
      assert t[..|t| - 1] == s + [c] + init;
      assert forall d | d in init :: d in piece;
      SplitAppends(s, c, init);
      assert init + [piece[|piece| - 1]] == piece;
    }
  }

  lemma {:induction false} SplitOfPiece(piece: string)
    requires NoDelimiter(piece)
    ensures Split(piece) == [piece]
  {
    if piece != "" {
      var init := piece[..|piece| - 1];
      assert forall d | d in init :: d in piece;
      SplitOfPiece(init);
      assert init + [piece[|piece| - 1]] == piece;
    }
  }

  /** Splitting recovers any pieces without delimiters from the text that joins
      them: no other way to cut the text exists. */
  lemma {:induction false} SplitOfJoin(parts: seq<string>, cuts: string)
    requires |parts| == |cuts| + 1
    requires forall part | part in parts :: NoDelimiter(part)
    requires forall c | c in cuts :: IsDelimiter(c)
    ensures Split(Join(parts, cuts)) == parts
    decreases |cuts|
  {
    var n := |cuts|;
    if n == 0 {
      SplitOfPiece(parts[0]);
    } else {
      assert forall part | part in parts[..n] :: part in parts;
      SplitOfJoin(parts[..n], cuts[..n - 1]);
      SplitAppends(Join(parts[..n], cuts[..n - 1]), cuts[n - 1], parts[n]);
      assert parts[..n] + [parts[n]] == parts;
    }
  }

  /** The tokens are the pieces of the signature that are not empty, where the
      pieces joined with the delimiters they were cut at give the signature back.
      So they concatenate to the signature without its delimiters, and none holds
      a delimiter. */
  lemma TokensMeaning(signature: string)
    ensures |Split(signature)| == |Filter(signature, IsDelimiter)| + 1
    ensures Join(Split(signature), Filter(signature, IsDelimiter)) == signature
    ensures Flatten(Tokenize(signature)) == Filter(signature, NotDelimiter())
    ensures forall token | token in Tokenize(signature) :: token != "" && forall c | c in token :: !IsDelimiter(c)
  {
    JoinOfSplit(signature);
    SplitMeaning(signature);
    DropEmpty(Split(signature));
    FilterMembers(Split(signature), NonEmpty());
  }

  function ExtractFamilyCategory(signature: string): (Option<string>, Option<string>) {
    var parts := Tokenize(signature);
    (if parts != [] then Some(parts[0]) else None, if |parts| > 1 then Some(parts[1]) else None)
  }

  /** The family is the first token and the category the second. */
  lemma HintsAreTokens(signature: string)
    ensures var tokens := Tokenize(signature);
            var (family, category) := ExtractFamilyCategory(signature);
            && (family.Some? <==> |tokens| >= 1) && (category.Some? <==> |tokens| >= 2)
            && (family.Some? ==> tokens[0] == family.value) && (category.Some? ==> tokens[1] == category.value)
  {
  }

  /** The delimiters are these five characters. */
  lemma DelimitersCut(a: string, b: string, c: char)
    requires NoDelimiter(a) && NoDelimiter(b) && a != "" && b != ""
    ensures c in ":/._-" ==> ExtractFamilyCategory(a + [c] + b) == (Some(a), Some(b))
    ensures c !in ":/._-" ==> ExtractFamilyCategory(a + [c] + b) == (Some(a + [c] + b), None)
  {
    if c in ":/._-" {
      SplitOfPiece(a);
      SplitAppends(a, c, b);
      TokensOfTwo(a, b);
    } else {
      var whole := a + [c] + b;
      assert NoDelimiter(whole);
      SplitOfPiece(whole);
      TokensOfOne(whole);
    }
  }

  lemma TokensOfOne(a: string)
    requires a != ""
    ensures Filter([a], NonEmpty()) == [a]
  {
    assert [a][..0] == [];
  }

  lemma TokensOfTwo(a: string, b: string)
    requires a != "" && b != ""
    ensures Filter([a] + [b], NonEmpty()) == [a, b]
  {
    TokensOfOne(a);
    FilterSnoc([a], b, NonEmpty());
  }

  // ----------------------------------------------------- counting families

  /** A result as family detection reads it: no signature is the empty one. */
  datatype Signed = Signed(engine: Value, signature: string)

  /** The families named by the signatures, in listing order. */
  function FamilyHints(results: seq<Signed>): seq<string> {
    if results == [] then []
    else FamilyHints(results[..|results| - 1]) + Hint(ExtractFamilyCategory(results[|results| - 1].signature).0)
  }

  function CategoryHints(results: seq<Signed>): seq<string> {
    if results == [] then []
    else CategoryHints(results[..|results| - 1]) + Hint(ExtractFamilyCategory(results[|results| - 1].signature).1)
  }

  function Hint(h: Option<string>): seq<string> { if h.Some? then [h.value] else [] }

  /** Family and category hints are the first and the second tokens of the
      signatures, in listing order. */
  lemma HintsMeaning(results: seq<Signed>, r: Signed)
    ensures FamilyHints([]) == [] && CategoryHints([]) == []
    ensures var tokens := Tokenize(r.signature);
            && FamilyHints(results + [r]) == FamilyHints(results) + (if |tokens| >= 1 then [tokens[0]] else [])
            && CategoryHints(results + [r]) == CategoryHints(results) + (if |tokens| >= 2 then [tokens[1]] else [])
  {
    assert (results + [r])[..|results|] == results;
  }

  /** The signatures kept are those that are not empty, tokens or none. */
  lemma KeptSignatures(results: seq<Signed>, r: Signed)
    ensures r in Filter(results, HasSignature()) <==> r in results && r.signature != ""
  {
    FilterMembers(results, HasSignature());
  }

  function HasSignature(): Signed -> bool { (r: Signed) => r.signature != "" }

  /** The distinct elements in order of first occurrence. */
  function FirstSeen(xs: seq<string>): seq<string> {
    if xs == [] then []
    else
      var seen := FirstSeen(xs[..|xs| - 1]);
      if xs[|xs| - 1] in seen then seen else seen + [xs[|xs| - 1]]
  }

  function Count(xs: seq<string>, x: string): nat { multiset(xs)[x] }

  /** The counter after seeing `xs`. */
  ghost predicate Counts(counter: map<string, nat>, xs: seq<string>) {
    && counter.Keys == (set x | x in xs)
    && forall x | x in counter :: counter[x] == Count(xs, x)
  }

  datatype Detection = Detection(primary: Option<string>, families: seq<string>, categories: seq<string>,
                                 signatures: seq<Signed>)

  lemma {:induction false} FirstSeenMeaning(xs: seq<string>)
    ensures forall x :: x in FirstSeen(xs) <==> x in xs
    ensures forall i, j | 0 <= i < j < |FirstSeen(xs)| :: FirstSeen(xs)[i] != FirstSeen(xs)[j]
  {
    if xs != [] {
      FirstSeenMeaning(xs[..|xs| - 1]);
      assert xs == xs[..|xs| - 1] + [xs[|xs| - 1]];
    }
  }

  /** `FirstSeen` keeps first occurrences in order: a prefix of the input gives
      a prefix of the result. */
  lemma {:induction false} FirstSeenPrefix(xs: seq<string>, k: nat)
    requires k <= |xs|
    ensures FirstSeen(xs[..k]) <= FirstSeen(xs)
    decreases |xs|
  {
    if k < |xs| {
      FirstSeenPrefix(xs[..|xs| - 1], k);
      assert xs[..|xs| - 1][..k] == xs[..k];
    } else {
      assert xs[..k] == xs;
    }
  }

  /** The first-seen element of maximal count. */
  ghost predicate IsPrimary(p: Option<string>, xs: seq<string>) {
    match p
    case None => xs == []
    case Some(f) =>
      && f in xs
      && (forall g | g in xs :: Count(xs, g) <= Count(xs, f))
      && (forall i, j | 0 <= i < |FirstSeen(xs)| && 0 <= j < |FirstSeen(xs)| && FirstSeen(xs)[j] == f
                        && Count(xs, FirstSeen(xs)[i]) == Count(xs, f) :: j <= i)
  }

  /** `most_common(1)`: the first of maximal count in insertion order. */
  method MostCommon(counter: map<string, nat>, order: seq<string>, ghost xs: seq<string>) returns (p: Option<string>)
    requires order == FirstSeen(xs) && Counts(counter, xs)
    ensures IsPrimary(p, xs)
  {
    FirstSeenMeaning(xs);
    HasMember(xs);
    if order == [] {
      return None;
    }
    var best := 0;
    for i := 1 to |order|
      invariant 0 <= best < i
      invariant forall j | 0 <= j < i :: counter[order[j]] <= counter[order[best]]
      invariant forall j | 0 <= j < best :: counter[order[j]] < counter[order[best]]
    {
      if counter[order[i]] > counter[order[best]] {
        best := i;
      }
    }
    p := Some(order[best]);
    PrimaryAt(order, best, counter, xs);
  }

  lemma PrimaryAt(order: seq<string>, best: nat, counter: map<string, nat>, xs: seq<string>)
    requires order == FirstSeen(xs) && Counts(counter, xs) && best < |order|
    requires forall i, j | 0 <= i < j < |order| :: order[i] != order[j]
    requires forall x :: x in order <==> x in xs
    requires forall j | 0 <= j < |order| :: counter[order[j]] <= counter[order[best]]
    requires forall j | 0 <= j < best :: counter[order[j]] < counter[order[best]]
    ensures IsPrimary(Some(order[best]), xs)
  {
  }

  // ------------------------------------------------------------- the loop

  function HasToken(): Signed -> bool { (r: Signed) => Tokenize(r.signature) != [] }

  predicate TextLeq(a: string, b: string) {
    a == "" || (b != "" && (a[0] < b[0] || (a[0] == b[0] && TextLeq(a[1..], b[1..]))))
  }

  function Alphabetical(): (string, string) -> bool { (a: string, b: string) => TextLeq(a, b) }

  /** The order of the family list: a prefix comes first, and otherwise the
      first character that differs decides. */
  lemma {:induction false} TextLeqMeaning(a: string, b: string)
    ensures TextLeq(a, b) <==> a <= b || exists k :: DiffersAt(a, b, k)
  {
    if a != "" && b != "" {
      if a[0] == b[0] {
        TextLeqMeaning(a[1..], b[1..]);
        SameHead(a, b);
      } else if a[0] < b[0] {
        assert DiffersAt(a, b, 0);
      } else {
        forall k | 0 < k < |a| && k < |b|
          ensures a[..k] != b[..k]
        {
          assert a[..k][0] == a[0] && b[..k][0] == b[0];
        }
      }
    }
  }

  predicate DiffersAt(a: string, b: string, k: int) {
    0 <= k < |a| && k < |b| && a[..k] == b[..k] && a[k] < b[k]
  }

  lemma SameHead(a: string, b: string)
    requires a != "" && b != "" && a[0] == b[0]
    ensures a <= b <==> a[1..] <= b[1..]
    ensures (exists k :: DiffersAt(a, b, k)) <==> (exists k :: DiffersAt(a[1..], b[1..], k))
  {
    assert a == [a[0]] + a[1..] && b == [b[0]] + b[1..];
    if k :| DiffersAt(a, b, k) {
      assert k > 0;
      assert a[1..][..k - 1] == a[..k][1..] && b[1..][..k - 1] == b[..k][1..];
      assert DiffersAt(a[1..], b[1..], k - 1);
    }
    if k :| DiffersAt(a[1..], b[1..], k) {
      assert a[..k + 1] == [a[0]] + a[1..][..k] && b[..k + 1] == [b[0]] + b[1..][..k];
      assert DiffersAt(a, b, k + 1);
    }
  }

  lemma {:induction false} TextLeqTotal(a: string, b: string)
    ensures TextLeq(a, b) || TextLeq(b, a)
  {
    if a != "" && b != "" && a[0] == b[0] { TextLeqTotal(a[1..], b[1..]); }
  }

  lemma {:induction false} TextLeqTransitive(a: string, b: string, c: string)
    requires TextLeq(a, b) && TextLeq(b, c)
    ensures TextLeq(a, c)
  {
    if a != "" && a[0] == b[0] && b[0] == c[0] { TextLeqTransitive(a[1..], b[1..], c[1..]); }
  }

  lemma AlphabeticalOrders()
    ensures Ordering(Alphabetical())
  {
    forall a, b ensures Alphabetical()(a, b) || Alphabetical()(b, a) { TextLeqTotal(a, b); }
    forall a, b, c | Alphabetical()(a, b) && Alphabetical()(b, c) ensures Alphabetical()(a, c) {
      TextLeqTransitive(a, b, c);
    }
  }

  /** One more occurrence of `x` in the counter. */
  method Increment(counter: map<string, nat>, order: seq<string>, x: string, ghost xs: seq<string>)
    returns (counter': map<string, nat>, order': seq<string>)
    requires Counts(counter, xs) && order == FirstSeen(xs)
    ensures Counts(counter', xs + [x]) && order' == FirstSeen(xs + [x])
  {
    FirstSeenMeaning(xs);
    assert (xs + [x])[..|xs|] == xs;
    if x in counter {
      counter', order' := counter[x := counter[x] + 1], order;
    } else {
      counter', order' := counter[x := 1], order + [x];
    }
  }

  lemma HintsTake(results: seq<Signed>, i: nat)
    requires i < |results|
    ensures FamilyHints(results[..i + 1])
         == (match ExtractFamilyCategory(results[i].signature).0
             case Some(family) => FamilyHints(results[..i]) + [family]
             case None => FamilyHints(results[..i]))
    ensures CategoryHints(results[..i + 1])
         == (match ExtractFamilyCategory(results[i].signature).1
             case Some(category) => CategoryHints(results[..i]) + [category]
             case None => CategoryHints(results[..i]))
    ensures Filter(results[..i + 1], HasSignature())
         == Filter(results[..i], HasSignature()) + (if results[i].signature != "" then [results[i]] else [])
    ensures results[i].signature == "" ==> ExtractFamilyCategory(results[i].signature) == (None, None)
  {
    assert results[..i + 1][..i] == results[..i];
    if results[i].signature == "" {
      assert [""][..0] == [];
      assert Tokenize("") == [];
    }
  }

  /** The primary family is the first-seen family of maximal count, the families
      are sorted, the categories are the second tokens without repetition, and
      the signatures are kept in order. */
  ghost predicate Describes(d: Detection, results: seq<Signed>) {
    && IsPrimary(d.primary, FamilyHints(results))
    && d.families == Sort(FirstSeen(FamilyHints(results)), Alphabetical())
    && d.categories == FirstSeen(CategoryHints(results))
    && d.signatures == Filter(results, HasSignature())
  }

  /** The detection loop; the family counts are the multiplicities of the first
      tokens. */
  method DetectFamilies(results: seq<Signed>) returns (d: Detection, familyCounter: map<string, nat>)
    ensures Counts(familyCounter, FamilyHints(results))
    ensures Describes(d, results)
  {
    familyCounter := map[];
    var order, categories: seq<string>, signatures := [], [], [];
    ghost var families, kinds: seq<string> := [], [];
    for i := 0 to |results|
      invariant families == FamilyHints(results[..i]) && kinds == CategoryHints(results[..i])
      invariant Counts(familyCounter, families) && order == FirstSeen(families)
      invariant categories == FirstSeen(kinds)
      invariant signatures == Filter(results[..i], HasSignature())
    {
      var signature := results[i].signature;
      var (family, category) := ExtractFamilyCategory(signature);
      HintsTake(results, i);
      if signature == "" {
        continue;
      }
      signatures := signatures + [results[i]];
      if family.Some? {
        familyCounter, order := Increment(familyCounter, order, family.value, families);
        families := families + [family.value];
      }
      if category.Some? {
        FirstSeenSnoc(kinds, category.value);
        kinds := kinds + [category.value];
        if category.value !in categories {
          categories := categories + [category.value];
        }
      }
    }
    assert results[..|results|] == results;
    var primary := MostCommon(familyCounter, order, families);
    d := Detection(primary, Sort(order, Alphabetical()), categories, signatures);
  }

  lemma FirstSeenSnoc(xs: seq<string>, x: string)
    ensures FirstSeen(xs + [x]) == (if x in FirstSeen(xs) then FirstSeen(xs) else FirstSeen(xs) + [x])
  {
  }

  // --------------------------------------------------------- conservation

  /** The counts of the families listed in `order`, added up. */
  function CountSum(xs: seq<string>, order: seq<string>): nat {
    if order == [] then 0 else CountSum(xs, order[..|order| - 1]) + Count(xs, order[|order| - 1])
  }

  lemma {:induction false} CountSumSnoc(xs: seq<string>, x: string, order: seq<string>)
    ensures CountSum(xs + [x], order) == CountSum(xs, order) + Count(order, x)
  {
    if order != [] {
      var init, last := order[..|order| - 1], order[|order| - 1];
      CountSumSnoc(xs, x, init);
      assert order == init + [last];
      assert Count(order, x) == Count(init, x) + (if last == x then 1 else 0);
      assert Count(xs + [x], last) == Count(xs, last) + (if last == x then 1 else 0);
    }
  }

  lemma {:induction false} FirstSeenOnce(xs: seq<string>, x: string)
    ensures Count(FirstSeen(xs), x) == if x in xs then 1 else 0
  {
    if xs != [] {
      var init, last := xs[..|xs| - 1], xs[|xs| - 1];
      FirstSeenOnce(init, x);
      FirstSeenMeaning(init);
      assert xs == init + [last];
      if last !in FirstSeen(init) {
        assert Count(FirstSeen(init) + [last], x) == Count(FirstSeen(init), x) + (if last == x then 1 else 0);
      }
    }
  }

  lemma {:induction false} CountsCoverHints(xs: seq<string>)
    ensures CountSum(xs, FirstSeen(xs)) == |xs|
  {
    if xs != [] {
      var init, last := xs[..|xs| - 1], xs[|xs| - 1];
      CountsCoverHints(init);
      assert xs == init + [last];
      CountSumSnoc(init, last, FirstSeen(init));
      FirstSeenOnce(init, last);
      FirstSeenMeaning(init);
      if last !in FirstSeen(init) {
        var seen := FirstSeen(init);
        assert (seen + [last])[..|seen|] == seen;
        assert Count(init, last) == 0;
        assert multiset(xs) == multiset(init) + multiset{last};
      }
    }
  }

  lemma {:induction false} OneHintPerToken(results: seq<Signed>)
    ensures |FamilyHints(results)| == |Filter(results, HasToken())|
  {
    if results != [] {
      OneHintPerToken(results[..|results| - 1]);
    }
  }

  /** The family counts add up to the number of signatures with a token: every
      such signature is counted once, under exactly one family. */
  lemma FamilyCountsConserve(results: seq<Signed>)
    ensures CountSum(FamilyHints(results), FirstSeen(FamilyHints(results))) == |Filter(results, HasToken())|
  {
    CountsCoverHints(FamilyHints(results));
    OneHintPerToken(results);
  }

  /** The reported family list is the counted families, each once, in
      alphabetical order. */
  lemma FamilyListIsSortedKeys(results: seq<Signed>)
    ensures var families := Sort(FirstSeen(FamilyHints(results)), Alphabetical());
            && Sorted(families, Alphabetical())
            && (forall f :: multiset(families)[f] == if f in FamilyHints(results) then 1 else 0)
  {
    AlphabeticalOrders();
    SortSorted(FirstSeen(FamilyHints(results)), Alphabetical());
    SortMembers(FirstSeen(FamilyHints(results)), Alphabetical());
    forall f ensures Count(FirstSeen(FamilyHints(results)), f) == if f in FamilyHints(results) then 1 else 0 {
      FirstSeenOnce(FamilyHints(results), f);
    }
  }
}
