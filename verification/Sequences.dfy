/** Folds, filters and stable sorting over sequences, shared by the models. */
module Sequences {

  // ---------------------------------------------------------------- sums

  /** The sum of `f` over `xs`, accumulated from the left as a loop would. */
  function Sum<T>(xs: seq<T>, f: T -> real): real {
    if xs == [] then 0.0 else Sum(xs[..|xs| - 1], f) + f(xs[|xs| - 1])
  }

  lemma {:induction false} SumConcat<T>(xs: seq<T>, ys: seq<T>, f: T -> real)
    ensures Sum(xs + ys, f) == Sum(xs, f) + Sum(ys, f)
  {
    if ys == [] {
      assert xs + ys == xs;
    } else {
      assert (xs + ys)[..|xs + ys| - 1] == xs + ys[..|ys| - 1];
      SumConcat(xs, ys[..|ys| - 1], f);
    }
  }

  lemma SumTake<T>(xs: seq<T>, i: nat, f: T -> real)
    requires i < |xs|
    ensures Sum(xs[..i + 1], f) == Sum(xs[..i], f) + f(xs[i])
  {
    assert xs[..i + 1][..i] == xs[..i];
  }

  lemma SumSingle<T>(x: T, f: T -> real)
    ensures Sum([x], f) == f(x)
  {
  }

  /** What inserting one element anywhere does to a sum. */
  lemma SumInsert<T>(xs: seq<T>, k: nat, x: T, f: T -> real)
    requires k <= |xs|
    ensures Sum(xs[..k] + [x] + xs[k..], f) == Sum(xs, f) + f(x)
  {
    assert xs == xs[..k] + xs[k..];
    SumConcat(xs[..k], xs[k..], f);
    SumConcat(xs[..k] + [x], xs[k..], f);
    SumConcat(xs[..k], [x], f);
    SumSingle(x, f);
  }

  /** What replacing one element does to a sum. */
  lemma SumReplace<T>(xs: seq<T>, k: nat, x: T, f: T -> real)
    requires k < |xs|
    ensures Sum(xs[k := x], f) == Sum(xs, f) - f(xs[k]) + f(x)
  {
    var rest := xs[..k] + xs[k + 1..];
    assert rest[..k] + [x] + rest[k..] == xs[k := x];
    assert rest[..k] + [xs[k]] + rest[k..] == xs;
    SumInsert(rest, k, x, f);
    SumInsert(rest, k, xs[k], f);
  }

  /** A sum does not depend on the order of its terms. */
  lemma {:induction false} SumPermutation<T>(xs: seq<T>, ys: seq<T>, f: T -> real)
    requires multiset(xs) == multiset(ys)
    ensures Sum(xs, f) == Sum(ys, f)
    decreases |xs|
  {
    if xs == [] {
      SameLength(xs, ys);
    } else {
      var k := MatchLast(xs, ys);
      var rest := ys[..k] + ys[k + 1..];
      SumPermutation(xs[..|xs| - 1], rest, f);
      assert rest[..k] + [ys[k]] + rest[k..] == ys;
      SumInsert(rest, k, ys[k], f);
    }
  }

  lemma SameLength<T>(xs: seq<T>, ys: seq<T>)
    requires multiset(xs) == multiset(ys)
    ensures |xs| == |ys|
  {
    assert |multiset(xs)| == |xs|;
  }

  /** Where the last element of `xs` sits in a permutation of it. */
  lemma MatchLast<T>(xs: seq<T>, ys: seq<T>) returns (k: nat)
    requires xs != [] && multiset(xs) == multiset(ys)
    ensures k < |ys| && ys[k] == xs[|xs| - 1]
    ensures multiset(xs[..|xs| - 1]) == multiset(ys[..k] + ys[k + 1..])
  {
    var x := xs[|xs| - 1];
    assert x in multiset(xs);
    assert x in ys;
    k :| 0 <= k < |ys| && ys[k] == x;
    assert xs == xs[..|xs| - 1] + [x];
    assert multiset(xs) == multiset(xs[..|xs| - 1]) + multiset{x};
    MultisetRemove(ys, k);
  }

  lemma MultisetRemove<T>(xs: seq<T>, k: nat)
    requires k < |xs|
    ensures multiset(xs[..k] + xs[k + 1..]) == multiset(xs) - multiset{xs[k]}
  {
    assert xs == xs[..k] + [xs[k]] + xs[k + 1..];
  }

  lemma SameMembers<T>(xs: seq<T>, ys: seq<T>)
    requires multiset(xs) == multiset(ys)
    ensures forall x :: x in xs <==> x in ys
  {
    forall x ensures x in xs <==> x in ys {
      assert x in xs <==> x in multiset(xs);
      assert x in ys <==> x in multiset(ys);
    }
  }

  /** Pointwise comparison of two sums over the same elements. */
  lemma {:induction false} SumAtMost<T>(xs: seq<T>, f: T -> real, g: T -> real)
    requires forall x | x in xs :: f(x) <= g(x)
    ensures Sum(xs, f) <= Sum(xs, g)
  {
    if xs != [] {
      SumAtMost(xs[..|xs| - 1], f, g);
    }
  }

  /** A sum of terms that are never negative is at least any one of them. */
  lemma {:induction false} SumAtLeastTerm<T>(xs: seq<T>, f: T -> real)
    requires forall x | x in xs :: 0.0 <= f(x)
    ensures 0.0 <= Sum(xs, f)
    ensures forall x | x in xs :: f(x) <= Sum(xs, f)
  {
    if xs != [] {
      SumAtLeastTerm(xs[..|xs| - 1], f);
      assert forall x | x in xs :: x == xs[|xs| - 1] || x in xs[..|xs| - 1];
    }
  }

  /** Sums add and scale termwise. */
  lemma {:induction false} SumLinear<T>(xs: seq<T>, f: T -> real, g: T -> real, h: T -> real)
    requires forall x | x in xs :: h(x) == f(x) + g(x)
    ensures Sum(xs, h) == Sum(xs, f) + Sum(xs, g)
  {
    if xs != [] {
      SumLinear(xs[..|xs| - 1], f, g, h);
    }
  }

  lemma {:induction false} SumZero<T>(xs: seq<T>, f: T -> real)
    requires forall x | x in xs :: f(x) == 0.0
    ensures Sum(xs, f) == 0.0
  {
    if xs != [] {
      SumZero(xs[..|xs| - 1], f);
    }
  }

  // ------------------------------------------------------------- filters

  /** The elements of `xs` that satisfy `p`, in their order. */
  function Filter<T>(xs: seq<T>, p: T -> bool): seq<T> {
    if xs == [] then []
    else Filter(xs[..|xs| - 1], p) + (if p(xs[|xs| - 1]) then [xs[|xs| - 1]] else [])
  }

  lemma {:induction false} FilterConcat<T>(xs: seq<T>, ys: seq<T>, p: T -> bool)
    ensures Filter(xs + ys, p) == Filter(xs, p) + Filter(ys, p)
  {
    if ys == [] {
      assert xs + ys == xs;
    } else {
      assert (xs + ys)[..|xs + ys| - 1] == xs + ys[..|ys| - 1];
      FilterConcat(xs, ys[..|ys| - 1], p);
    }
  }

  lemma FilterSnoc<T>(xs: seq<T>, x: T, p: T -> bool)
    ensures Filter(xs + [x], p) == (if p(x) then Filter(xs, p) + [x] else Filter(xs, p))
  {
  }

  lemma {:induction false} FilterMembers<T>(xs: seq<T>, p: T -> bool)
    ensures forall x :: x in Filter(xs, p) <==> x in xs && p(x)
  {
    if xs != [] {
      FilterMembers(xs[..|xs| - 1], p);
      assert xs == xs[..|xs| - 1] + [xs[|xs| - 1]];
    }
  }

  /** Splits a sequence into two kinds; nothing is lost or duplicated. */
  lemma {:induction false} FilterSplit<T>(xs: seq<T>, p: T -> bool, q: T -> bool)
    requires forall x | x in xs :: q(x) == !p(x)
    ensures multiset(Filter(xs, p)) + multiset(Filter(xs, q)) == multiset(xs)
  {
    if xs != [] {
      var init, x := xs[..|xs| - 1], xs[|xs| - 1];
      FilterSplit(init, p, q);
      assert multiset(xs) == multiset(init) + multiset{x} by {
        assert xs == init + [x];
      }
      if p(x) {
        assert Filter(xs, p) == Filter(init, p) + [x];
        assert Filter(xs, q) == Filter(init, q);
      } else {
        assert Filter(xs, p) == Filter(init, p);
        assert Filter(xs, q) == Filter(init, q) + [x];
      }
    }
  }

  lemma {:induction false} FilterTwice<T>(xs: seq<T>, p: T -> bool, q: T -> bool, both: T -> bool)
    requires forall x | x in xs :: both(x) == (p(x) && q(x))
    ensures Filter(Filter(xs, p), q) == Filter(xs, both)
  {
    if xs != [] {
      var x := xs[|xs| - 1];
      FilterTwice(xs[..|xs| - 1], p, q, both);
      FilterConcat(Filter(xs[..|xs| - 1], p), if p(x) then [x] else [], q);
      if p(x) {
        assert [x][..0] == [];
      }
    }
  }

  lemma TakeStep<T>(prefix: seq<T>, xs: seq<T>, i: nat)
    requires i < |xs|
    ensures prefix + xs[..i] + [xs[i]] == prefix + xs[..i + 1]
  {
  }

  // ------------------------------------------------------------- flatten

  function Flatten<T>(xss: seq<seq<T>>): seq<T> {
    if xss == [] then [] else Flatten(xss[..|xss| - 1]) + xss[|xss| - 1]
  }

  lemma {:induction false} FlattenConcat<T>(xss: seq<seq<T>>, yss: seq<seq<T>>)
    ensures Flatten(xss + yss) == Flatten(xss) + Flatten(yss)
  {
    if yss == [] {
      assert xss + yss == xss;
    } else {
      var init, last := yss[..|yss| - 1], yss[|yss| - 1];
      FlattenConcat(xss, init);
      assert (xss + yss)[..|xss + yss| - 1] == xss + init;
      assert Flatten(xss + yss) == Flatten(xss + init) + last;
    }
  }

  // -------------------------------------------------------------- sorting

  ghost predicate Ordering<T(!new)>(leq: (T, T) -> bool) {
    && (forall x, y :: leq(x, y) || leq(y, x))
    && (forall x, y, z :: leq(x, y) && leq(y, z) ==> leq(x, z))
  }

  ghost predicate Sorted<T>(xs: seq<T>, leq: (T, T) -> bool) {
    forall i, j | 0 <= i < j < |xs| :: leq(xs[i], xs[j])
  }

  /** Places `x` after every element it does not come strictly before. */
  function Insert<T>(xs: seq<T>, x: T, leq: (T, T) -> bool): seq<T> {
    if xs == [] || leq(xs[|xs| - 1], x) then xs + [x]
    else Insert(xs[..|xs| - 1], x, leq) + [xs[|xs| - 1]]
  }

  /** Stable sorting: equal elements keep their order. */
  function Sort<T>(xs: seq<T>, leq: (T, T) -> bool): seq<T> {
    if xs == [] then [] else Insert(Sort(xs[..|xs| - 1], leq), xs[|xs| - 1], leq)
  }

  lemma {:induction false} InsertMembers<T>(xs: seq<T>, x: T, leq: (T, T) -> bool)
    ensures multiset(Insert(xs, x, leq)) == multiset(xs) + multiset{x}
  {
    if !(xs == [] || leq(xs[|xs| - 1], x)) {
      var init, last := xs[..|xs| - 1], xs[|xs| - 1];
      InsertMembers(init, x, leq);
      assert Insert(xs, x, leq) == Insert(init, x, leq) + [last];
      assert xs == init + [last];
    }
  }

  lemma {:induction false} InsertSorted<T(!new)>(xs: seq<T>, x: T, leq: (T, T) -> bool)
    requires Ordering(leq) && Sorted(xs, leq)
    ensures Sorted(Insert(xs, x, leq), leq)
  {
    if !(xs == [] || leq(xs[|xs| - 1], x)) {
      var init, last := xs[..|xs| - 1], xs[|xs| - 1];
      InsertSorted(init, x, leq);
      InsertBelow(init, x, last, leq);
    }
  }

  lemma InsertBelow<T(!new)>(xs: seq<T>, x: T, top: T, leq: (T, T) -> bool)
    requires leq(x, top) && forall y | y in xs :: leq(y, top)
    ensures forall y | y in Insert(xs, x, leq) :: leq(y, top)
  {
  }

  lemma {:induction false} SortMembers<T>(xs: seq<T>, leq: (T, T) -> bool)
    ensures multiset(Sort(xs, leq)) == multiset(xs)
  {
    if xs != [] {
      var init, last := xs[..|xs| - 1], xs[|xs| - 1];
      SortMembers(init, leq);
      InsertMembers(Sort(init, leq), last, leq);
      assert xs == init + [last];
    }
  }

  lemma {:induction false} SortSorted<T(!new)>(xs: seq<T>, leq: (T, T) -> bool)
    requires Ordering(leq)
    ensures Sorted(Sort(xs, leq), leq)
  {
    if xs != [] {
      SortSorted(xs[..|xs| - 1], leq);
      InsertSorted(Sort(xs[..|xs| - 1], leq), xs[|xs| - 1], leq);
    }
  }

  /** Stability: the elements equivalent to `x` keep their relative order. */
  lemma {:induction false} InsertStable<T(!new)>(xs: seq<T>, y: T, leq: (T, T) -> bool, alike: T -> bool)
    requires Ordering(leq) && Sorted(xs, leq)
    requires forall a, b | alike(a) && alike(b) :: leq(a, b)
    ensures Filter(Insert(xs, y, leq), alike) == Filter(xs + [y], alike)
  {
    FilterConcat(xs, [y], alike);
    if !(xs == [] || leq(xs[|xs| - 1], y)) {
      var init, last := xs[..|xs| - 1], xs[|xs| - 1];
      InsertStable(init, y, leq, alike);
      FilterConcat(init, [y], alike);
      var inner := Insert(init, y, leq);
      assert (inner + [last])[..|inner|] == inner;
      assert [y][..0] == [];
    }
  }

  lemma InsertKeepsAlike<T(!new)>(sorted: seq<T>, init: seq<T>, last: T, leq: (T, T) -> bool, alike: T -> bool)
    requires Ordering(leq) && Sorted(sorted, leq) && Filter(sorted, alike) == Filter(init, alike)
    requires forall a, b | alike(a) && alike(b) :: leq(a, b)
    ensures Filter(Insert(sorted, last, leq), alike) == Filter(init + [last], alike)
  {
    InsertStable(sorted, last, leq, alike);
    FilterSnoc(sorted, last, alike);
    FilterSnoc(init, last, alike);
  }

  lemma {:induction false} SortStable<T(!new)>(xs: seq<T>, leq: (T, T) -> bool, alike: T -> bool)
    requires Ordering(leq)
    requires forall a, b | alike(a) && alike(b) :: leq(a, b)
    ensures Filter(Sort(xs, leq), alike) == Filter(xs, alike)
  {
    if xs != [] {
      var init, last := xs[..|xs| - 1], xs[|xs| - 1];
      SortStable(init, leq, alike);
      SortSorted(init, leq);
      InsertKeepsAlike(Sort(init, leq), init, last, leq, alike);
      assert xs == init + [last];
    }
  }

  lemma HasMember<T>(xs: seq<T>)
    ensures xs != [] ==> exists x :: x in xs
  {
    if xs != [] { assert xs[0] in xs; }
  }

  /** A sum over the elements of one kind. */
  lemma {:induction false} SumOfFilter<T>(xs: seq<T>, p: T -> bool, f: T -> real, g: T -> real)
    requires forall x | x in xs :: g(x) == if p(x) then f(x) else 0.0
    ensures Sum(Filter(xs, p), f) == Sum(xs, g)
  {
    if xs != [] {
      var init, last := xs[..|xs| - 1], xs[|xs| - 1];
      SumOfFilter(init, p, f, g);
      FilterSnoc(init, last, p);
      assert xs == init + [last];
      if p(last) { SumSnoc(Filter(init, p), last, f); }
    }
  }

  lemma SumSnoc<T>(xs: seq<T>, x: T, f: T -> real)
    ensures Sum(xs + [x], f) == Sum(xs, f) + f(x)
  {
    assert (xs + [x])[..|xs|] == xs;
  }

  ghost predicate Proportional<T>(xs: seq<T>, k: real, f: T -> real, g: T -> real) {
    forall x | x in xs :: g(x) == k * f(x)
  }

  lemma {:induction false} SumScaled<T>(xs: seq<T>, k: real, f: T -> real, g: T -> real)
    requires Proportional(xs, k, f, g)
    ensures Sum(xs, g) == k * Sum(xs, f)
  {
    if xs != [] {
      var init := xs[..|xs| - 1];
      assert forall x | x in init :: x in xs;
      SumScaled(init, k, f, g);
    }
  }
}
