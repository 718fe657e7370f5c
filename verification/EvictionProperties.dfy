/** What a cleanup does to the bucket, whatever the listing. */
module EvictionProperties {
  import opened Sequences
  import opened Storage

  // ------------------------------------------------------ delete requests

  lemma FlattenOne(call: seq<string>)
    ensures Flatten([call]) == call
  {
  }

  lemma {:induction false} ChunksFlatten(keys: seq<string>)
    ensures Flatten(Chunks(keys)) == keys
    ensures forall call | call in Chunks(keys) :: 1 <= |call| <= DELETE_BATCH_SIZE
  {
    if 0 < |keys| <= DELETE_BATCH_SIZE {
      FlattenOne(keys);
    } else if keys != [] {
      var head, tail := keys[..DELETE_BATCH_SIZE], keys[DELETE_BATCH_SIZE..];
      ChunksFlatten(tail);
      FlattenConcat([head], Chunks(tail));
      FlattenOne(head);
      assert keys == head + tail;
    }
  }

  /** The requests of one cleanup, concatenated, are the expired keys in
      listing order followed by the victims oldest-first; no request is empty
      or over the limit. */
  lemma DeleteRequestsAreExact(listing: seq<Listed>, limits: Limits, now: int)
    ensures Flatten(Plan(listing, limits, now))
         == Keys(ExpiredObjects(listing, limits, now)) + Keys(Victims(listing, limits, now))
    ensures forall call | call in Plan(listing, limits, now) :: 1 <= |call| <= DELETE_BATCH_SIZE
  {
    var a, b := Keys(ExpiredObjects(listing, limits, now)), Keys(Victims(listing, limits, now));
    ChunksFlatten(a);
    ChunksFlatten(b);
    FlattenConcat(Chunks(a), Chunks(b));
  }

  /** No request could have been saved: all but the last are full. */
  lemma {:induction false} RequestsAreFull(keys: seq<string>)
    ensures forall i | 0 <= i < |Chunks(keys)| - 1 :: |Chunks(keys)[i]| == 1000
    ensures forall call | call in Chunks(keys) :: 1 <= |call| <= 1000
  {
    if |keys| > 1000 {
      RequestsAreFull(keys[1000..]);
      assert Chunks(keys) == [keys[..1000]] + Chunks(keys[1000..]);
    }
  }

  /** What the scan decides about each listed object: an object with a key and a
      date is expired from the moment its age reaches the TTL and a candidate
      for eviction until then; one whose date cannot be read only counts. */
  lemma ScanDecides(listing: seq<Listed>, limits: Limits, now: int, o: Listed)
    ensures o in ExpiredObjects(listing, limits, now) <==>
            o in listing && o.key != "" && o.modified.At? && now - o.modified.micros >= limits.ttlSeconds * 1_000_000
    ensures o in Candidates(listing, limits, now) <==>
            o in listing && o.key != "" && o.modified.At? && now - o.modified.micros < limits.ttlSeconds * 1_000_000
    ensures o in Filter(listing, IsCounted()) <==> o in listing && o.key != "" && !o.modified.Missing?
    ensures o in Filter(listing, IsUndated()) <==> o in listing && o.key != "" && o.modified.Unreadable?
  {
    FilterMembers(listing, IsExpired(limits, now));
    FilterMembers(listing, IsCandidate(limits, now));
    FilterMembers(listing, IsCounted());
    FilterMembers(listing, IsUndated());
    SortMembers(Filter(listing, IsCandidate(limits, now)), OldestFirst());
    SameMembers(Candidates(listing, limits, now), Filter(listing, IsCandidate(limits, now)));
  }

  ghost predicate Distinct<T>(xs: seq<T>) {
    forall i, j | 0 <= i < j < |xs| :: xs[i] != xs[j]
  }

  lemma {:induction false} DistinctCount<T>(xs: seq<T>)
    ensures Distinct(xs) <==> forall x :: multiset(xs)[x] <= 1
  {
    if xs != [] {
      var init, last := xs[..|xs| - 1], xs[|xs| - 1];
      DistinctCount(init);
      assert xs == init + [last];
      assert multiset(xs) == multiset(init) + multiset{last};
      if Distinct(xs) {
        assert Distinct(init);
        assert last !in init;
      } else {
        var i, j :| 0 <= i < j < |xs| && xs[i] == xs[j];
        if j < |xs| - 1 {
          assert init[i] == init[j];
          var x :| multiset(init)[x] > 1;
          assert multiset(xs)[x] > 1;
        } else {
          assert init[i] == last && last in init;
          assert multiset(xs)[last] >= 2;
        }
      }
    }
  }

  lemma DistinctPermutation<T>(xs: seq<T>, ys: seq<T>)
    requires Distinct(xs) && multiset(xs) == multiset(ys)
    ensures Distinct(ys)
  {
    DistinctCount(xs);
    DistinctCount(ys);
  }

  lemma {:induction false} KeysMultiset(xs: seq<Listed>, ys: seq<Listed>)
    requires multiset(xs) == multiset(ys)
    ensures multiset(Keys(xs)) == multiset(Keys(ys))
    decreases |xs|
  {
    if xs == [] {
      SameLength(xs, ys);
    } else {
      var k := MatchLast(xs, ys);
      var init, rest := xs[..|xs| - 1], ys[..k] + ys[k + 1..];
      KeysMultiset(init, rest);
      assert Keys(xs) == Keys(init) + [ys[k].key];
      assert Keys(ys) == Keys(ys[..k]) + [ys[k].key] + Keys(ys[k + 1..]);
      assert Keys(rest) == Keys(ys[..k]) + Keys(ys[k + 1..]);
    }
  }

  /** Every dated object of the listing is either expired or a candidate. */
  lemma DatedSplit(listing: seq<Listed>, limits: Limits, now: int)
    ensures multiset(ExpiredObjects(listing, limits, now)) + multiset(Candidates(listing, limits, now))
         == multiset(Filter(listing, IsDated()))
  {
    var all := Filter(listing, IsDated());
    FilterMembers(listing, IsDated());
    FilterSplit(all, IsExpired(limits, now), IsCandidate(limits, now));
    FilterTwice(listing, IsDated(), IsExpired(limits, now), IsExpired(limits, now));
    FilterTwice(listing, IsDated(), IsCandidate(limits, now), IsCandidate(limits, now));
    CandidatesSorted(listing, limits, now);
  }

  function IsDated(): Listed -> bool { (o: Listed) => Dated(o) }

  lemma CandidatesSorted(listing: seq<Listed>, limits: Limits, now: int)
    ensures multiset(Candidates(listing, limits, now)) == multiset(Filter(listing, IsCandidate(limits, now)))
    ensures forall o :: o in Candidates(listing, limits, now) <==> o in listing && Dated(o) && !Expired(o, limits, now)
    ensures Sorted(Candidates(listing, limits, now), OldestFirst())
  {
    var raw := Filter(listing, IsCandidate(limits, now));
    FilterMembers(listing, IsCandidate(limits, now));
    SortSorted(raw, OldestFirst());
    SortMembers(raw, OldestFirst());
    SameMembers(raw, Candidates(listing, limits, now));
  }

  // ------------------------------------------------------------ eviction

  function SizeOf(): Listed -> real { (o: Listed) => o.size as real }

  lemma {:induction false} TotalSizeIsSum(xs: seq<Listed>)
    ensures TotalSize(xs) as real == Sum(xs, SizeOf())
  {
    if xs != [] {
      TotalSizeIsSum(xs[..|xs| - 1]);
    }
  }

  lemma TotalSizePermutation(xs: seq<Listed>, ys: seq<Listed>)
    requires multiset(xs) == multiset(ys)
    ensures TotalSize(xs) == TotalSize(ys)
  {
    TotalSizeIsSum(xs);
    TotalSizeIsSum(ys);
    SumPermutation(xs, ys, SizeOf());
  }

  /** Bytes the scan counts but cannot date, so can never reclaim. */
  function UndatedSize(listing: seq<Listed>): nat { TotalSize(Filter(listing, IsUndated())) }

  /** The running total the eviction starts from is exactly the candidates
      plus what cannot be dated. */
  lemma UnexpiredSplit(listing: seq<Listed>, limits: Limits, now: int)
    ensures Unexpired(listing, limits, now) == TotalSize(Candidates(listing, limits, now)) + UndatedSize(listing)
  {
    CandidatesSorted(listing, limits, now);
    TotalSizePermutation(Candidates(listing, limits, now), Filter(listing, IsCandidate(limits, now)));
    CountedSplit(listing, limits, now);
  }

  lemma {:induction false} CountedSplit(listing: seq<Listed>, limits: Limits, now: int)
    ensures TotalSize(Filter(listing, IsCounted()))
         == TotalSize(ExpiredObjects(listing, limits, now)) + TotalSize(Filter(listing, IsCandidate(limits, now)))
            + UndatedSize(listing)
  {
    if listing != [] {
      var init, o := listing[..|listing| - 1], listing[|listing| - 1];
      assert listing == init + [o];
      CountedSplit(init, limits, now);
      CountedSnoc(init, o);
      ExpiredSnoc(init, o, limits, now);
      FilterSnoc(init, o, IsCandidate(limits, now));
      TotalSizeSnoc(Filter(init, IsCandidate(limits, now)), o);
      FilterSnoc(init, o, IsUndated());
      TotalSizeSnoc(Filter(init, IsUndated()), o);
    }
  }

  lemma {:induction false} VictimCountMeaning(candidates: seq<Listed>, remaining: int, cap: int)
    ensures var n := VictimCount(candidates, remaining, cap);
            && n <= |candidates|
            && (forall k | 0 <= k < n :: remaining - TotalSize(candidates[..k]) > cap)
            && (n < |candidates| ==> remaining - TotalSize(candidates[..n]) <= cap)
  {
    var n := VictimCount(candidates, remaining, cap);
    if remaining > cap && candidates != [] {
      var head, tail := candidates[0], candidates[1..];
      VictimCountMeaning(tail, remaining - head.size, cap);
      forall k | 0 < k <= |candidates| ensures TotalSize(candidates[..k]) == head.size + TotalSize(tail[..k - 1]) {
        assert candidates[..k] == [head] + tail[..k - 1];
        TotalSizeConcat([head], tail[..k - 1]);
        assert [head][..0] == [];
      }
    }
  }

  /** Size eviction removes the shortest prefix of the candidates, oldest
      first, that makes the rest fit: every shorter prefix leaves too much, the
      rest fits exactly when the bytes that cannot be dated fit on their own,
      and nothing goes when all fits already. */
  lemma EvictionIsShortestPrefix(listing: seq<Listed>, limits: Limits, now: int)
    ensures var victims := Victims(listing, limits, now);
            && victims <= Candidates(listing, limits, now)
            && (forall k | 0 <= k < |victims| ::
                  Unexpired(listing, limits, now) - TotalSize(victims[..k]) > limits.maxBytes)
            && (Unexpired(listing, limits, now) - TotalSize(victims) <= limits.maxBytes
                <==> UndatedSize(listing) <= limits.maxBytes)
            && (Unexpired(listing, limits, now) <= limits.maxBytes ==> victims == [])
  {
    var victims, candidates := Victims(listing, limits, now), Candidates(listing, limits, now);
    var remaining, n := Unexpired(listing, limits, now), |victims|;
    VictimCountMeaning(candidates, remaining, limits.maxBytes);
    forall k | 0 <= k < n ensures remaining - TotalSize(victims[..k]) > limits.maxBytes {
      assert victims[..k] == candidates[..k];
    }
    UnexpiredSplit(listing, limits, now);
    TotalSizeConcat(victims, Kept(listing, limits, now));
  }

  /** The candidates are the unexpired dated objects, and no kept one is older
      than a victim. */
  lemma EvictionIsOldestFirst(listing: seq<Listed>, limits: Limits, now: int, victim: Listed, kept: Listed)
    requires victim in Victims(listing, limits, now)
    requires kept in Kept(listing, limits, now)
    ensures victim in listing && kept in listing
    ensures Dated(victim) && !Expired(victim, limits, now) && Dated(kept) && !Expired(kept, limits, now)
    ensures victim.modified.micros <= kept.modified.micros
  {
    var candidates := Candidates(listing, limits, now);
    CandidatesSorted(listing, limits, now);
    assert candidates == Victims(listing, limits, now) + Kept(listing, limits, now);
    assert victim in candidates && kept in candidates;
    OldestFirstAcross(candidates, |Victims(listing, limits, now)|, victim, kept);
  }

  lemma OldestFirstAcross(candidates: seq<Listed>, n: nat, v: Listed, o: Listed)
    requires n <= |candidates| && Sorted(candidates, OldestFirst())
    requires v in candidates[..n] && o in candidates[n..]
    ensures Instant(v) <= Instant(o)
  {
  }

  function HasInstant(t: int): Listed -> bool { (o: Listed) => Instant(o) == t }

  /** Candidates of the same age go in the order the listing has them. */
  lemma EqualTimesKeepListingOrder(listing: seq<Listed>, limits: Limits, now: int, t: int)
    ensures Filter(Candidates(listing, limits, now), HasInstant(t))
         == Filter(Filter(listing, IsCandidate(limits, now)), HasInstant(t))
  {
    SortStable(Filter(listing, IsCandidate(limits, now)), OldestFirst(), HasInstant(t));
  }

  // ------------------------------------------- the bucket after a cleanup

  /** The dated objects a cleanup asks to delete. */
  function Doomed(listing: seq<Listed>, limits: Limits, now: int): seq<Listed> {
    ExpiredObjects(listing, limits, now) + Victims(listing, limits, now)
  }

  lemma DoomedMembers(listing: seq<Listed>, limits: Limits, now: int)
    ensures multiset(Doomed(listing, limits, now)) <= multiset(listing)
    ensures Flatten(Plan(listing, limits, now)) == Keys(Doomed(listing, limits, now))
  {
    DatedSplit(listing, limits, now);
    VictimsAmongCandidates(listing, limits, now);
    FilterSplit(listing, IsDated(), IsNotDated());
    DeleteRequestsAreExact(listing, limits, now);
    KeysConcat(ExpiredObjects(listing, limits, now), Victims(listing, limits, now));
  }

  lemma VictimsAmongCandidates(listing: seq<Listed>, limits: Limits, now: int)
    ensures multiset(Victims(listing, limits, now)) <= multiset(Candidates(listing, limits, now))
  {
    assert multiset(Candidates(listing, limits, now))
        == multiset(Victims(listing, limits, now)) + multiset(Kept(listing, limits, now));
  }

  lemma KeysConcat(a: seq<Listed>, b: seq<Listed>)
    ensures Keys(a + b) == Keys(a) + Keys(b)
  {
  }

  function IsNotDated(): Listed -> bool { (o: Listed) => !Dated(o) }

  lemma KeyMembers(xs: seq<Listed>)
    ensures forall k :: k in Keys(xs) <==> exists o :: o in xs && o.key == k
  {
    forall k ensures k in Keys(xs) <==> exists o :: o in xs && o.key == k {
      if k in Keys(xs) {
        var i :| 0 <= i < |xs| && Keys(xs)[i] == k;
        assert xs[i] in xs;
      }
      if o :| o in xs && o.key == k {
        var i :| 0 <= i < |xs| && xs[i] == o;
        assert Keys(xs)[i] == k;
      }
    }
  }

  lemma SubsetDistinct<T>(xs: seq<T>, ys: seq<T>)
    requires Distinct(ys) && multiset(xs) <= multiset(ys)
    ensures Distinct(xs)
  {
    DistinctCount(xs);
    DistinctCount(ys);
  }

  lemma {:induction false} KeysSubset(xs: seq<Listed>, ys: seq<Listed>)
    requires multiset(xs) <= multiset(ys)
    ensures multiset(Keys(xs)) <= multiset(Keys(ys))
    decreases |xs|
  {
    if xs != [] {
      var k := FindLast(xs, ys);
      var init, rest := xs[..|xs| - 1], ys[..k] + ys[k + 1..];
      KeysSubset(init, rest);
      KeysRemove(ys, k);
      assert Keys(xs) == Keys(init) + [ys[k].key];
    }
  }

  lemma FindLast<T>(xs: seq<T>, ys: seq<T>) returns (k: nat)
    requires xs != [] && multiset(xs) <= multiset(ys)
    ensures k < |ys| && ys[k] == xs[|xs| - 1]
    ensures multiset(xs[..|xs| - 1]) <= multiset(ys[..k] + ys[k + 1..])
  {
    var x := xs[|xs| - 1];
    assert xs == xs[..|xs| - 1] + [x];
    assert multiset(xs) == multiset(xs[..|xs| - 1]) + multiset{x};
    SubMember(xs, ys, x);
    k :| 0 <= k < |ys| && ys[k] == x;
    MultisetRemove(ys, k);
  }

  lemma KeysRemove(ys: seq<Listed>, k: nat)
    requires k < |ys|
    ensures multiset(Keys(ys)) == multiset(Keys(ys[..k] + ys[k + 1..])) + multiset{ys[k].key}
  {
    assert Keys(ys) == Keys(ys[..k]) + [ys[k].key] + Keys(ys[k + 1..]);
    assert Keys(ys[..k] + ys[k + 1..]) == Keys(ys[..k]) + Keys(ys[k + 1..]);
  }

  /** No key is requested twice in one cleanup. */
  lemma NoKeyDeletedTwice(listing: seq<Listed>, limits: Limits, now: int)
    requires Distinct(Keys(listing))
    ensures Distinct(Flatten(Plan(listing, limits, now)))
  {
    DoomedMembers(listing, limits, now);
    KeysSubset(Doomed(listing, limits, now), listing);
    SubsetDistinct(Keys(Doomed(listing, limits, now)), Keys(listing));
  }

  /** When the server refuses no request, exactly the requested keys are gone. */
  lemma {:induction false} ApplyAllCalls(objects: seq<Listed>, calls: seq<seq<string>>, first: nat, rejects: Refusals)
    requires forall n, key | first <= n < first + |calls| :: !rejects(n, key)
    ensures ApplyCalls(objects, calls, first, rejects) == Without(objects, Flatten(calls))
  {
    if calls == [] {
      EverythingOutside(objects);
    } else {
      var init, last := calls[..|calls| - 1], calls[|calls| - 1];
      ApplyAllCalls(objects, init, first, rejects);
      FilterTwice(objects, KeyOutside(Flatten(init)), KeyStays(last, first + |init|, rejects), KeyOutside(Flatten(calls)));
    }
  }

  lemma {:induction false} EverythingOutside(objects: seq<Listed>)
    ensures Without(objects, []) == objects
  {
    if objects != [] {
      EverythingOutside(objects[..|objects| - 1]);
    }
  }

  function KeyInside(keys: seq<string>): Listed -> bool { (o: Listed) => o.key in keys }

  /** With distinct keys, deleting the doomed keys deletes the doomed objects. */
  lemma DeletedExactly(objects: seq<Listed>, doomed: seq<Listed>)
    requires Distinct(Keys(objects)) && multiset(doomed) <= multiset(objects)
    ensures multiset(Without(objects, Keys(doomed))) + multiset(doomed) == multiset(objects)
  {
    var inside := Filter(objects, KeyInside(Keys(doomed)));
    FilterSplit(objects, KeyInside(Keys(doomed)), KeyOutside(Keys(doomed)));
    InsideIsDoomed(objects, doomed);
    DistinctObjects(objects);
    assert multiset(inside) <= multiset(objects);
    SameCounts(inside, doomed, objects);
  }

  lemma SameCounts<T>(xs: seq<T>, ys: seq<T>, all: seq<T>)
    requires Distinct(all) && multiset(xs) <= multiset(all) && multiset(ys) <= multiset(all)
    requires forall x :: x in xs <==> x in ys
    ensures multiset(xs) == multiset(ys)
  {
    DistinctCount(all);
    forall x ensures multiset(xs)[x] == multiset(ys)[x] {
      assert x in xs <==> x in multiset(xs);
      assert x in ys <==> x in multiset(ys);
      assert multiset(xs)[x] <= multiset(all)[x] <= 1;
      assert multiset(ys)[x] <= multiset(all)[x] <= 1;
    }
  }

  lemma InsideIsDoomed(objects: seq<Listed>, doomed: seq<Listed>)
    requires Distinct(Keys(objects)) && multiset(doomed) <= multiset(objects)
    ensures forall o :: o in Filter(objects, KeyInside(Keys(doomed))) <==> o in doomed
  {
    FilterMembers(objects, KeyInside(Keys(doomed)));
    KeyMembers(doomed);
    forall o ensures (o in objects && o.key in Keys(doomed)) <==> o in doomed {
      SubMember(doomed, objects, o);
      if o in objects && o.key in Keys(doomed) {
        var d :| d in doomed && d.key == o.key;
        SubMember(doomed, objects, d);
        SameKeySameObject(objects, o, d);
      }
    }
  }

  lemma SubMember<T>(xs: seq<T>, ys: seq<T>, x: T)
    requires multiset(xs) <= multiset(ys)
    ensures x in xs ==> x in ys
  {
    if x in xs {
      assert x in multiset(xs);
      assert x in multiset(ys);
    }
  }

  lemma DistinctObjects(objects: seq<Listed>)
    requires Distinct(Keys(objects))
    ensures Distinct(objects)
  {
    forall i, j | 0 <= i < j < |objects| ensures objects[i] != objects[j] {
      assert Keys(objects)[i] != Keys(objects)[j];
    }
  }

  lemma SameKeySameObject(objects: seq<Listed>, a: Listed, b: Listed)
    requires Distinct(Keys(objects)) && a in objects && b in objects && a.key == b.key
    ensures a == b
  {
    var i :| 0 <= i < |objects| && objects[i] == a;
    var j :| 0 <= j < |objects| && objects[j] == b;
    assert Keys(objects)[i] == Keys(objects)[j];
  }

  /** After a cleanup none of whose requests is refused, the bucket holds the
      old objects minus the expired ones and the victims, and what it counts
      fits the cap exactly when the bytes that cannot be dated do. */
  lemma BucketAfterCleanup(objects: seq<Listed>, listing: seq<Listed>, limits: Limits, now: int, first: nat, rejects: Refusals)
    requires Distinct(Keys(objects)) && multiset(listing) == multiset(objects)
    requires forall n, key | first <= n < first + |Plan(listing, limits, now)| :: !rejects(n, key)
    ensures var left := ApplyCalls(objects, Plan(listing, limits, now), first, rejects);
            && multiset(left) + multiset(ExpiredObjects(listing, limits, now)) + multiset(Victims(listing, limits, now))
               == multiset(objects)
            && (TotalSize(Filter(left, IsCounted())) <= limits.maxBytes <==> UndatedSize(listing) <= limits.maxBytes)
  {
    var left := ApplyCalls(objects, Plan(listing, limits, now), first, rejects);
    var doomed := Doomed(listing, limits, now);
    ApplyAllCalls(objects, Plan(listing, limits, now), first, rejects);
    DoomedMembers(listing, limits, now);
    DeletedExactly(objects, doomed);
    EvictionIsShortestPrefix(listing, limits, now);
    assert multiset(left + doomed) == multiset(listing);
    CountedTotal(left, doomed, listing, limits, now);
  }

  lemma CountedTotal(left: seq<Listed>, doomed: seq<Listed>, listing: seq<Listed>, limits: Limits, now: int)
    requires doomed == Doomed(listing, limits, now)
    requires multiset(left + doomed) == multiset(listing)
    ensures TotalSize(Filter(left, IsCounted()))
         == Unexpired(listing, limits, now) - TotalSize(Victims(listing, limits, now))
  {
    FilterPermutation(left + doomed, listing, IsCounted());
    TotalSizePermutation(Filter(left + doomed, IsCounted()), Filter(listing, IsCounted()));
    FilterConcat(left, doomed, IsCounted());
    TotalSizeConcat(Filter(left, IsCounted()), Filter(doomed, IsCounted()));
    AllCounted(listing, limits, now);
    TotalSizeConcat(ExpiredObjects(listing, limits, now), Victims(listing, limits, now));
  }

  lemma AllCounted(listing: seq<Listed>, limits: Limits, now: int)
    ensures Filter(Doomed(listing, limits, now), IsCounted()) == Doomed(listing, limits, now)
  {
    FilterMembers(listing, IsExpired(limits, now));
    CandidatesSorted(listing, limits, now);
    assert Candidates(listing, limits, now) == Victims(listing, limits, now) + Kept(listing, limits, now);
    FilterAll(Doomed(listing, limits, now), IsCounted());
  }

  lemma {:induction false} FilterAll<T>(xs: seq<T>, p: T -> bool)
    requires forall x | x in xs :: p(x)
    ensures Filter(xs, p) == xs
  {
    if xs != [] {
      var init, last := xs[..|xs| - 1], xs[|xs| - 1];
      assert xs == init + [last];
      FilterAll(init, p);
      assert Filter(xs, p) == init + [last];
    }
  }

  lemma {:induction false} FilterPermutation<T>(xs: seq<T>, ys: seq<T>, p: T -> bool)
    requires multiset(xs) == multiset(ys)
    ensures multiset(Filter(xs, p)) == multiset(Filter(ys, p))
    decreases |xs|
  {
    if xs == [] {
      SameLength(xs, ys);
    } else {
      var k := MatchLast(xs, ys);
      FilterPermutation(xs[..|xs| - 1], ys[..k] + ys[k + 1..], p);
      FilterRemove(ys, k, p);
    }
  }

  lemma FilterRemove<T>(ys: seq<T>, k: nat, p: T -> bool)
    requires k < |ys|
    ensures multiset(Filter(ys, p))
         == multiset(Filter(ys[..k] + ys[k + 1..], p)) + (if p(ys[k]) then multiset{ys[k]} else multiset{})
  {
    var before, y, after := ys[..k], ys[k], ys[k + 1..];
    var whole := before + [y] + after;
    assert whole == ys by { SplitAround(ys, k); }
    FilterAround(before, y, after, p);
  }

  lemma SplitAround<T>(ys: seq<T>, k: nat)
    requires k < |ys|
    ensures ys[..k] + [ys[k]] + ys[k + 1..] == ys
  {
  }

  lemma FilterAround<T>(before: seq<T>, y: T, after: seq<T>, p: T -> bool)
    ensures multiset(Filter(before + [y] + after, p))
         == multiset(Filter(before + after, p)) + (if p(y) then multiset{y} else multiset{})
  {
    FilterConcat(before + [y], after, p);
    FilterSnoc(before, y, p);
    FilterConcat(before, after, p);
  }

  // -------------------------------------------------------- fresh uploads

  /** `o` is dated, still alive, and strictly newer than everything else dated. */
  ghost predicate StrictlyNewest(o: Listed, listing: seq<Listed>, limits: Limits, now: int) {
    && o in listing && Dated(o) && !Expired(o, limits, now)
    && forall p | p in listing && Dated(p) && p != o :: p.modified.micros < o.modified.micros
  }

  /** The cleanup that follows an upload deletes the strictly newest object
      exactly when it cannot fit beside the bytes that cannot be dated. Refused
      requests cannot change that. */
  lemma NewestSurvives(objects: seq<Listed>, listing: seq<Listed>, limits: Limits, now: int, o: Listed,
                       first: nat, rejects: Refusals)
    requires Distinct(Keys(objects)) && multiset(listing) == multiset(objects)
    requires StrictlyNewest(o, listing, limits, now)
    ensures o.key in Flatten(Plan(listing, limits, now)) <==> UndatedSize(listing) + o.size > limits.maxBytes
    ensures UndatedSize(listing) + o.size <= limits.maxBytes
            ==> o in ApplyCalls(objects, Plan(listing, limits, now), first, rejects)
  {
    KeysMultiset(objects, listing);
    DistinctPermutation(Keys(objects), Keys(listing));
    DistinctObjects(listing);
    NewestIsLast(listing, limits, now, o);
    DoomedOnlyIfVictim(listing, limits, now, o);
    if UndatedSize(listing) + o.size <= limits.maxBytes {
      SameMembers(objects, listing);
      UnnamedKeySurvives(objects, Plan(listing, limits, now), first, rejects, o);
    }
  }

  lemma DoomedOnlyIfVictim(listing: seq<Listed>, limits: Limits, now: int, o: Listed)
    requires Distinct(Keys(listing))
    requires o in listing && Dated(o) && !Expired(o, limits, now)
    ensures o.key in Flatten(Plan(listing, limits, now)) <==> o in Victims(listing, limits, now)
  {
    var doomed := Doomed(listing, limits, now);
    DoomedMembers(listing, limits, now);
    KeyMembers(doomed);
    FilterMembers(listing, IsExpired(limits, now));
    if o.key in Keys(doomed) {
      var d :| d in doomed && d.key == o.key;
      SubMember(doomed, listing, d);
      SameKeySameObject(listing, o, d);
    }
    if o in Victims(listing, limits, now) {
      assert o in doomed;
    }
  }

  /** The newest object is the last candidate, so it goes only if all others
      going is not enough. */
  lemma NewestIsLast(listing: seq<Listed>, limits: Limits, now: int, o: Listed)
    requires Distinct(listing) && StrictlyNewest(o, listing, limits, now)
    ensures o in Victims(listing, limits, now) <==> UndatedSize(listing) + o.size > limits.maxBytes
  {
    var candidates := Candidates(listing, limits, now);
    CandidatesSorted(listing, limits, now);
    UnexpiredSplit(listing, limits, now);
    CandidatesDistinct(listing, limits, now);
    LastIsNewest(candidates, o);
    LastVictim(candidates, Unexpired(listing, limits, now), limits.maxBytes);
    if o in Victims(listing, limits, now) {
      SoleLast(candidates, |Victims(listing, limits, now)|);
    }
  }

  /** The last candidate is reached only if all others going is not enough. */
  lemma LastVictim(candidates: seq<Listed>, remaining: int, cap: int)
    requires candidates != [] && remaining >= TotalSize(candidates)
    ensures VictimCount(candidates, remaining, cap) == |candidates|
            <==> remaining - TotalSize(candidates) + candidates[|candidates| - 1].size > cap
    ensures VictimCount(candidates, remaining, cap) <= |candidates|
  {
    var n, count := |candidates|, VictimCount(candidates, remaining, cap);
    VictimCountMeaning(candidates, remaining, cap);
    assert candidates == candidates[..n - 1] + [candidates[n - 1]];
    TotalSizeSnoc(candidates[..n - 1], candidates[n - 1]);
    if count < n {
      TotalSizePrefix(candidates[..n - 1], count);
      assert candidates[..n - 1][..count] == candidates[..count];
    }
  }

  lemma SoleLast(candidates: seq<Listed>, k: nat)
    requires candidates != [] && Distinct(candidates) && k <= |candidates|
    requires candidates[|candidates| - 1] in candidates[..k]
    ensures k == |candidates|
  {
  }

  lemma TotalSizePrefix(xs: seq<Listed>, k: nat)
    requires k <= |xs|
    ensures TotalSize(xs[..k]) <= TotalSize(xs)
  {
    assert xs == xs[..k] + xs[k..];
    TotalSizeConcat(xs[..k], xs[k..]);
  }

  lemma CandidatesDistinct(listing: seq<Listed>, limits: Limits, now: int)
    requires Distinct(listing)
    ensures Distinct(Candidates(listing, limits, now))
  {
    DatedSplit(listing, limits, now);
    FilterSplit(listing, IsDated(), IsNotDated());
    SubsetDistinct(Candidates(listing, limits, now), listing);
  }

  lemma LastIsNewest(candidates: seq<Listed>, o: Listed)
    requires Distinct(candidates) && Sorted(candidates, OldestFirst()) && o in candidates
    requires forall p | p in candidates && p != o :: Instant(p) < Instant(o)
    ensures candidates[|candidates| - 1] == o
  {
  }

  /** Whatever is refused, an object is left iff it was there and every request
      that named its key was refused for it. */
  lemma {:induction false} StoredAfterCalls(objects: seq<Listed>, calls: seq<seq<string>>, first: nat, rejects: Refusals, o: Listed)
    ensures o in ApplyCalls(objects, calls, first, rejects) <==> o in objects && KeyOutlasts(calls, first, rejects, o.key)
  {
    if calls != [] {
      var k := |calls| - 1;
      StoredAfterCalls(objects, calls[..k], first, rejects, o);
      FilterMembers(ApplyCalls(objects, calls[..k], first, rejects), KeyStays(calls[k], first + k, rejects));
      OutlastsSnoc(calls, first, rejects, o.key);
    }
  }

  /** Every request that names the key is refused for it. */
  predicate KeyOutlasts(calls: seq<seq<string>>, first: nat, rejects: Refusals, key: string) {
    forall n | 0 <= n < |calls| :: key in calls[n] ==> rejects(first + n, key)
  }

  lemma OutlastsSnoc(calls: seq<seq<string>>, first: nat, rejects: Refusals, key: string)
    requires calls != []
    ensures var k := |calls| - 1;
            KeyOutlasts(calls, first, rejects, key) <==>
            KeyOutlasts(calls[..k], first, rejects, key) && (key in calls[k] ==> rejects(first + k, key))
  {
    var k := |calls| - 1;
    assert forall n | 0 <= n < k :: calls[..k][n] == calls[n];
  }

  lemma {:induction false} FlattenHolds(calls: seq<seq<string>>, n: nat, key: string)
    requires n < |calls| && key in calls[n]
    ensures key in Flatten(calls)
  {
    if n < |calls| - 1 { FlattenHolds(calls[..|calls| - 1], n, key); }
  }

  lemma UnnamedKeySurvives(objects: seq<Listed>, calls: seq<seq<string>>, first: nat, rejects: Refusals, o: Listed)
    requires o in objects && o.key !in Flatten(calls)
    ensures o in ApplyCalls(objects, calls, first, rejects)
  {
    forall n | 0 <= n < |calls|
      ensures o.key !in calls[n]
    {
      if o.key in calls[n] { FlattenHolds(calls, n, o.key); }
    }
    StoredAfterCalls(objects, calls, first, rejects, o);
  }

  /** After a cleanup in which nothing is refused, no dated object that reached
      the TTL is left. */
  lemma NothingExpiredIsLeft(objects: seq<Listed>, listing: seq<Listed>, limits: Limits, now: int, first: nat,
                             rejects: Refusals, o: Listed)
    requires multiset(listing) == multiset(objects)
    requires forall n, key | first <= n < first + |Plan(listing, limits, now)| :: !rejects(n, key)
    requires o in ApplyCalls(objects, Plan(listing, limits, now), first, rejects) && o.key != "" && o.modified.At?
    ensures now - o.modified.micros < limits.ttlSeconds * 1_000_000
  {
    var plan := Plan(listing, limits, now);
    ApplyAllCalls(objects, plan, first, rejects);
    FilterMembers(objects, KeyOutside(Flatten(plan)));
    DeleteRequestsAreExact(listing, limits, now);
    SameMembers(objects, listing);
    ScanDecides(listing, limits, now, o);
    KeyOfMember(ExpiredObjects(listing, limits, now), o);
  }

  lemma KeyOfMember(xs: seq<Listed>, o: Listed)
    ensures o in xs ==> o.key in Keys(xs)
  {
    if o in xs {
      var i :| 0 <= i < |xs| && xs[i] == o;
      assert Keys(xs)[i] == o.key;
    }
  }

  /** An upload the size guard accepts survives the cleanup it triggers, in any
      listing order and whatever requests are refused, when it is the newest
      object, alive, and every counted object can be dated. */
  lemma AcceptedUploadSurvives(objects: seq<Listed>, digest: string, size: nat, uploadedAt: int,
                               listing: seq<Listed>, limits: Limits, now: int, first: nat, rejects: Refusals)
    requires Distinct(Keys(objects))
    requires size <= limits.maxBytes
    requires now - uploadedAt < limits.ttlSeconds * MICROS_PER_SECOND
    requires forall o | o in objects && Counted(o) :: Dated(o) && o.modified.micros < uploadedAt
    requires multiset(listing)
          == multiset(Without(objects, [ObjectKey(digest)]) + [Listed(ObjectKey(digest), At(uploadedAt), size)])
    ensures Listed(ObjectKey(digest), At(uploadedAt), size)
            in ApplyCalls(Without(objects, [ObjectKey(digest)]) + [Listed(ObjectKey(digest), At(uploadedAt), size)],
                          Plan(listing, limits, now), first, rejects)
  {
    var o := Listed(ObjectKey(digest), At(uploadedAt), size);
    var stored := Without(objects, [o.key]) + [o];
    assert o.key[|o.key| - 1] == 'l';
    UploadedKeysDistinct(objects, o);
    FilterMembers(objects, KeyOutside([o.key]));
    SameMembers(stored, listing);
    AllDated(listing);
    NewestSurvives(stored, listing, limits, now, o, first, rejects);
  }

  lemma AllDated(listing: seq<Listed>)
    requires forall o | o in listing && Counted(o) :: Dated(o)
    ensures UndatedSize(listing) == 0
  {
    FilterMembers(listing, IsUndated());
    HasMember(Filter(listing, IsUndated()));
  }

  /** Storing under a key replaces whatever had that key. */
  lemma UploadedKeysDistinct(objects: seq<Listed>, o: Listed)
    requires Distinct(Keys(objects))
    ensures Distinct(Keys(Without(objects, [o.key]) + [o]))
  {
    var rest := Without(objects, [o.key]);
    FilterSplit(objects, KeyOutside([o.key]), KeyInside([o.key]));
    KeysSubset(rest, objects);
    SubsetDistinct(Keys(rest), Keys(objects));
    FilterMembers(objects, KeyOutside([o.key]));
    KeyMembers(rest);
    KeysSnoc(rest, o);
    DistinctSnoc(Keys(rest), o.key);
  }

  lemma DistinctSnoc<T>(xs: seq<T>, x: T)
    requires Distinct(xs) && x !in xs
    ensures Distinct(xs + [x])
  {
  }
}
