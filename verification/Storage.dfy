/** Bucket eviction and guarded upload (app/services/storage.py). */
module Storage {
  import opened Sequences

  const DELETE_BATCH_SIZE := 1000
  const CHUNK_SIZE := 1048576
  const MICROS_PER_SECOND := 1_000_000

  /** The modification time of a listed object: absent, an instant in
      microseconds, or a value that is not a timestamp. */
  datatype Stamp = Missing | At(micros: int) | Unreadable

  datatype Listed = Listed(key: string, modified: Stamp, size: nat)

  datatype Limits = Limits(ttlSeconds: int, maxBytes: int)

  // ------------------------------------------------ what a cleanup looks at

  predicate Counted(o: Listed) { o.key != "" && !o.modified.Missing? }

  predicate Dated(o: Listed) { Counted(o) && o.modified.At? }

  predicate Expired(o: Listed, limits: Limits, now: int) {
    Dated(o) && now - o.modified.micros >= limits.ttlSeconds * MICROS_PER_SECOND
  }

  function IsExpired(limits: Limits, now: int): Listed -> bool {
    (o: Listed) => Expired(o, limits, now)
  }

  function IsCandidate(limits: Limits, now: int): Listed -> bool {
    (o: Listed) => Dated(o) && !Expired(o, limits, now)
  }

  function IsUndated(): Listed -> bool {
    (o: Listed) => Counted(o) && !o.modified.At?
  }

  function IsCounted(): Listed -> bool { (o: Listed) => Counted(o) }

  function KeyOutside(keys: seq<string>): Listed -> bool { (o: Listed) => o.key !in keys }

  function Instant(o: Listed): int { if o.modified.At? then o.modified.micros else 0 }

  function OldestFirst(): (Listed, Listed) -> bool {
    (a: Listed, b: Listed) => Instant(a) <= Instant(b)
  }

  function TotalSize(objects: seq<Listed>): nat {
    if objects == [] then 0
    else TotalSize(objects[..|objects| - 1]) + objects[|objects| - 1].size
  }

  function Keys(objects: seq<Listed>): seq<string> {
    seq(|objects|, i requires 0 <= i < |objects| => objects[i].key)
  }

  // ------------------------------------------------------------- the plan

  /** How many of the first candidates go before the remainder fits. */
  function VictimCount(candidates: seq<Listed>, remaining: int, cap: int): nat
  {
    if remaining <= cap || candidates == [] then 0
    else 1 + VictimCount(candidates[1..], remaining - candidates[0].size, cap)
  }

  lemma {:induction false} VictimCountBound(candidates: seq<Listed>, remaining: int, cap: int)
    ensures VictimCount(candidates, remaining, cap) <= |candidates|
  {
    if remaining > cap && candidates != [] {
      VictimCountBound(candidates[1..], remaining - candidates[0].size, cap);
    }
  }

  function ExpiredObjects(listing: seq<Listed>, limits: Limits, now: int): seq<Listed> {
    Filter(listing, IsExpired(limits, now))
  }

  function Candidates(listing: seq<Listed>, limits: Limits, now: int): seq<Listed> {
    Sort(Filter(listing, IsCandidate(limits, now)), OldestFirst())
  }

  /** What is stored once the expired objects are discounted. */
  function Unexpired(listing: seq<Listed>, limits: Limits, now: int): int {
    TotalSize(Filter(listing, IsCounted())) - TotalSize(ExpiredObjects(listing, limits, now))
  }

  function Victims(listing: seq<Listed>, limits: Limits, now: int): seq<Listed> {
    var candidates := Candidates(listing, limits, now);
    VictimCountBound(candidates, Unexpired(listing, limits, now), limits.maxBytes);
    candidates[..VictimCount(candidates, Unexpired(listing, limits, now), limits.maxBytes)]
  }

  /** The candidates a cleanup leaves in place. */
  function Kept(listing: seq<Listed>, limits: Limits, now: int): (kept: seq<Listed>)
    ensures Candidates(listing, limits, now) == Victims(listing, limits, now) + kept
  {
    var candidates := Candidates(listing, limits, now);
    VictimCountBound(candidates, Unexpired(listing, limits, now), limits.maxBytes);
    candidates[VictimCount(candidates, Unexpired(listing, limits, now), limits.maxBytes)..]
  }

  /** Cuts a key list into requests of at most one thousand keys. */
  function Chunks(keys: seq<string>): seq<seq<string>> {
    if keys == [] then []
    else if |keys| <= DELETE_BATCH_SIZE then [keys]
    else [keys[..DELETE_BATCH_SIZE]] + Chunks(keys[DELETE_BATCH_SIZE..])
  }

  /** The delete requests one cleanup issues for a listing. */
  function Plan(listing: seq<Listed>, limits: Limits, now: int): seq<seq<string>> {
    Chunks(Keys(ExpiredObjects(listing, limits, now))) + Chunks(Keys(Victims(listing, limits, now)))
  }

  // --------------------------------------------------------- the S3 bucket

  function Without(objects: seq<Listed>, keys: seq<string>): seq<Listed> {
    Filter(objects, KeyOutside(keys))
  }

  /** Whether the server refuses to delete a key in the n-th request ever issued:
      it may refuse a request as a whole or single keys of it. */
  type Refusals = (nat, string) -> bool

  function KeyStays(keys: seq<string>, n: nat, rejects: Refusals): Listed -> bool {
    (o: Listed) => o.key !in keys || rejects(n, o.key)
  }

  /** The bucket after a run of delete requests. */
  function ApplyCalls(objects: seq<Listed>, calls: seq<seq<string>>, first: nat, rejects: Refusals): seq<Listed> {
    if calls == [] then objects
    else
      var n := |calls| - 1;
      Filter(ApplyCalls(objects, calls[..n], first, rejects), KeyStays(calls[n], first + n, rejects))
  }

  lemma {:induction false} ApplyCallsConcat(objects: seq<Listed>, a: seq<seq<string>>, b: seq<seq<string>>, first: nat, rejects: Refusals)
    ensures ApplyCalls(objects, a + b, first, rejects)
         == ApplyCalls(ApplyCalls(objects, a, first, rejects), b, first + |a|, rejects)
  {
    if b == [] {
      assert a + b == a;
    } else {
      assert (a + b)[..|a + b| - 1] == a + b[..|b| - 1];
      ApplyCallsConcat(objects, a, b[..|b| - 1], first, rejects);
    }
  }

  /** From one bucket state and request log, a run of requests leads to another. */
  ghost predicate Leads(objects: seq<Listed>, calls: seq<seq<string>>, plan: seq<seq<string>>,
                        objects': seq<Listed>, calls': seq<seq<string>>, rejects: Refusals)
  {
    && calls' == calls + plan
    && objects' == ApplyCalls(objects, plan, |calls|, rejects)
  }

  lemma LeadsCompose(o0: seq<Listed>, c0: seq<seq<string>>, a: seq<seq<string>>, o1: seq<Listed>, c1: seq<seq<string>>,
                     b: seq<seq<string>>, o2: seq<Listed>, c2: seq<seq<string>>, rejects: Refusals)
    requires Leads(o0, c0, a, o1, c1, rejects) && Leads(o1, c1, b, o2, c2, rejects)
    ensures Leads(o0, c0, a + b, o2, c2, rejects)
  {
    ApplyCallsConcat(o0, a, b, |c0|, rejects);
  }

  /** The object store, as the service sees it. */
  class Bucket {
    var objects: seq<Listed>
    var calls: seq<seq<string>>
    const rejects: Refusals

    constructor (rejects: Refusals)
      ensures objects == [] && calls == [] && this.rejects == rejects
    {
      objects, calls := [], [];
      this.rejects := rejects;
    }

    /** `calls` grew by `plan` since the given state, and the contents followed. */
    ghost predicate Issued(objectsBefore: seq<Listed>, callsBefore: seq<seq<string>>, plan: seq<seq<string>>)
      reads this
    {
      Leads(objectsBefore, callsBefore, plan, objects, calls, rejects)
    }

    /** One delete request; what is refused is logged by the caller at most and
        otherwise ignored. */
    method DeleteBatch(keys: seq<string>)
      modifies this
      ensures Issued(old(objects), old(calls), [keys])
    {
      objects := Filter(objects, KeyStays(keys, |calls|, rejects));
      calls := calls + [keys];
      assert [keys][..0] == [];
    }

    /** The pages of one listing: every object once, in any order, split anywhere. */
    method ListPages() returns (pages: seq<seq<Listed>>)
      ensures multiset(Flatten(pages)) == multiset(objects)
    {
      pages := [objects];
      assert [objects][..0] == [];
      assert Flatten(pages) == objects;
    }

    method Upload(key: string, size: nat, at: int)
      modifies this
      ensures calls == old(calls)
      ensures objects == Without(old(objects), [key]) + [Listed(key, At(at), size)]
    {
      objects := Without(objects, [key]) + [Listed(key, At(at), size)];
    }
  }

  datatype Backend = S3 | Local

  datatype SaveResult = Stored(digest: string, location: string) | StorageLimitError

  function ObjectKey(digest: string): string { digest + "/original" }

  class StorageService {
    const backend: Backend
    const limits: Limits
    const store: Bucket

    constructor (backend: Backend, limits: Limits, store: Bucket)
      ensures this.backend == backend && this.limits == limits && this.store == store
    {
      this.backend := backend;
      this.limits := limits;
      this.store := store;
    }

    /** One request after the ones planned so far. */
    method SendSlice(ghost objects0: seq<Listed>, ghost calls0: seq<seq<string>>, ghost plan: seq<seq<string>>, slice: seq<string>)
      requires store.Issued(objects0, calls0, plan)
      modifies store
      ensures store.Issued(objects0, calls0, plan + [slice])
    {
      store.DeleteBatch(slice);
      LeadsCompose(objects0, calls0, plan, old(store.objects), old(store.calls), [slice], store.objects, store.calls,
                   store.rejects);
    }

    /** Deletes keys in slices of at most one thousand. */
    method DeleteObjects(keys: seq<string>)
      modifies store
      ensures store.Issued(old(store.objects), old(store.calls), Chunks(keys))
    {
      var idx := 0;
      ghost var plan := [];
      assert keys[0..] == keys;
      while idx < |keys|
        invariant 0 <= idx
        invariant Chunks(keys) == plan + ChunksFrom(keys, idx)
        invariant store.Issued(old(store.objects), old(store.calls), plan)
      {
        var slice := keys[idx..if idx + DELETE_BATCH_SIZE < |keys| then idx + DELETE_BATCH_SIZE else |keys|];
        ChunksFromStep(keys, idx, plan, slice);
        SendSlice(old(store.objects), old(store.calls), plan, slice);
        plan := plan + [slice];
        idx := idx + DELETE_BATCH_SIZE;
      }
      assert Chunks(keys) == plan;
    }

    /** Sends a queue after whole requests, leaving the cut unchanged. */
    method Flush(ghost objects0: seq<Listed>, ghost calls0: seq<seq<string>>, ghost sent: seq<string>, queue: seq<string>)
      requires |sent| % DELETE_BATCH_SIZE == 0
      requires store.Issued(objects0, calls0, Chunks(sent))
      modifies store
      ensures store.Issued(objects0, calls0, Chunks(sent + queue))
    {
      DeleteObjects(queue);
      ChunksConcat(sent, queue);
      LeadsCompose(objects0, calls0, Chunks(sent), old(store.objects), old(store.calls),
                   Chunks(queue), store.objects, store.calls, store.rejects);
    }

    /** Appends a key to a delete queue and empties the queue when it is full.
        `sent` is everything already requested on the queue's behalf. */
    method Enqueue(ghost objects0: seq<Listed>, ghost calls0: seq<seq<string>>, ghost sent: seq<string>,
                   queue: seq<string>, key: string)
      returns (queue': seq<string>, ghost sent': seq<string>)
      requires |sent| % DELETE_BATCH_SIZE == 0 && |queue| < DELETE_BATCH_SIZE
      requires store.Issued(objects0, calls0, Chunks(sent))
      modifies store
      ensures |sent'| % DELETE_BATCH_SIZE == 0 && |queue'| < DELETE_BATCH_SIZE
      ensures sent' + queue' == sent + queue + [key]
      ensures store.Issued(objects0, calls0, Chunks(sent'))
    {
      queue', sent' := queue + [key], sent;
      AppendAssociates(sent, queue, [key]);
      if |queue'| >= DELETE_BATCH_SIZE {
        Flush(objects0, calls0, sent, queue');
        FlushedWhole(sent, queue');
        queue', sent' := [], sent + queue';
      }
    }

    /** Scans the bucket page by page, drops expired objects, then evicts
        oldest-first until the rest fits. `listing` is what the scan saw. */
    method CleanupBucket(now: int) returns (ghost listing: seq<Listed>)
      modifies store
      ensures multiset(listing) == multiset(old(store.objects))
      ensures store.Issued(old(store.objects), old(store.calls),
                           if backend.S3? then Plan(listing, limits, now) else [])
    {
      listing := store.objects;
      if backend != S3 {
        return;
      }
      var pages := store.ListPages();
      listing := Flatten(pages);
      var totalSize, ttlDeletedSize, candidates := ScanPages(pages, now);

      var remaining := totalSize - ttlDeletedSize;
      PlanSplit(listing, limits, now, candidates, remaining);
      if remaining > limits.maxBytes && candidates != [] {
        label evict:
        EvictOldest(Sort(candidates, OldestFirst()), remaining);
        LeadsCompose(old(store.objects), old(store.calls), Chunks(Keys(ExpiredObjects(listing, limits, now))),
                     old@evict(store.objects), old@evict(store.calls), Chunks(Keys(Victims(listing, limits, now))),
                     store.objects, store.calls, store.rejects);
      }
    }

    /** The listing loop: totals, the flushed queue of expired keys, and the
        candidates for eviction. */
    method ScanPages(pages: seq<seq<Listed>>, now: int)
      returns (totalSize: int, ttlDeletedSize: int, candidates: seq<Listed>)
      modifies store
      ensures totalSize == TotalSize(Filter(Flatten(pages), IsCounted()))
      ensures ttlDeletedSize == TotalSize(ExpiredObjects(Flatten(pages), limits, now))
      ensures candidates == Filter(Flatten(pages), IsCandidate(limits, now))
      ensures store.Issued(old(store.objects), old(store.calls),
                           Chunks(Keys(ExpiredObjects(Flatten(pages), limits, now))))
    {
      totalSize, ttlDeletedSize, candidates := 0, 0, [];
      var queue: seq<string> := [];
      ghost var seen, flushed: seq<string> := [], [];
      for p := 0 to |pages|
        invariant seen == Flatten(pages[..p])
        invariant |flushed| % DELETE_BATCH_SIZE == 0 && |queue| < DELETE_BATCH_SIZE
        invariant Scan(flushed + queue, totalSize, ttlDeletedSize, candidates) == ScanOf(seen, limits, now)
        invariant store.Issued(old(store.objects), old(store.calls), Chunks(flushed))
      {
        queue, totalSize, ttlDeletedSize, candidates, flushed :=
          ScanPage(pages[p], now, queue, totalSize, ttlDeletedSize, candidates,
                   seen, flushed, old(store.objects), old(store.calls));
        assert pages[..p + 1][..p] == pages[..p];
        seen := seen + pages[p];
      }
      assert pages[..|pages|] == pages;
      ScanMeaning(seen, limits, now);
      assert flushed + [] == flushed;
      if queue != [] {
        Flush(old(store.objects), old(store.calls), flushed, queue);
      }
    }

    /** Reads an upload in chunks, refuses it when it alone exceeds the cap,
        stores it and cleans the bucket. `sha` names the content. */
    method SaveFile(content: seq<bv8>, sha: seq<bv8> -> string, uploadedAt: int, now: int)
      returns (r: SaveResult, ghost listing: seq<Listed>)
      modifies store
      ensures r.StorageLimitError? <==> backend.S3? && |content| > limits.maxBytes
      ensures r.Stored? ==> r.digest == sha(content)
      ensures !(r.Stored? && backend.S3?) ==> store.objects == old(store.objects) && store.calls == old(store.calls)
      ensures r.Stored? && backend.S3? ==>
                var stored := Without(old(store.objects), [r.digest + "/original"])
                              + [Listed(r.digest + "/original", At(uploadedAt), |content|)];
                && r.location == r.digest + "/original"
                && multiset(listing) == multiset(stored)
                && store.Issued(stored, old(store.calls), Plan(listing, limits, now))
    {
      listing := [];
      var hashed: seq<bv8> := [];
      var totalBytes := 0;
      while true
        invariant totalBytes == |hashed| <= |content| && hashed == content[..totalBytes]
        decreases |content| - totalBytes
      {
        var end := if totalBytes + CHUNK_SIZE < |content| then totalBytes + CHUNK_SIZE else |content|;
        var chunk := content[totalBytes..end];
        if chunk == [] {
          break;
        }
        hashed := hashed + chunk;
        totalBytes := totalBytes + |chunk|;
      }
      assert hashed == content;
      var digest := sha(hashed);
      if backend == S3 {
        if totalBytes > limits.maxBytes {
          return StorageLimitError, listing;
        }
        store.Upload(ObjectKey(digest), totalBytes, uploadedAt);
        listing := CleanupBucket(now);
        r := Stored(digest, ObjectKey(digest));
      } else {
        r := Stored(digest, ObjectKey(digest));
      }
    }

    /** One page of the listing loop, flushing the queue whenever it is full. */
    method ScanPage(page: seq<Listed>, now: int, queue0: seq<string>, total0: int, ttlDeleted0: int,
                    candidates0: seq<Listed>, ghost seen0: seq<Listed>, ghost flushed0: seq<string>,
                    ghost objects0: seq<Listed>, ghost calls0: seq<seq<string>>)
      returns (queue: seq<string>, totalSize: int, ttlDeletedSize: int, candidates: seq<Listed>,
               ghost flushed: seq<string>)
      requires |flushed0| % DELETE_BATCH_SIZE == 0 && |queue0| < DELETE_BATCH_SIZE
      requires Scan(flushed0 + queue0, total0, ttlDeleted0, candidates0) == ScanOf(seen0, limits, now)
      requires store.Issued(objects0, calls0, Chunks(flushed0))
      modifies store
      ensures |flushed| % DELETE_BATCH_SIZE == 0 && |queue| < DELETE_BATCH_SIZE
      ensures Scan(flushed + queue, totalSize, ttlDeletedSize, candidates) == ScanOf(seen0 + page, limits, now)
      ensures store.Issued(objects0, calls0, Chunks(flushed))
    {
      queue, totalSize, ttlDeletedSize, candidates, flushed := queue0, total0, ttlDeleted0, candidates0, flushed0;
      ghost var seen, expired := seen0, flushed0 + queue0;
      for i := 0 to |page|
        invariant seen == seen0 + page[..i]
        invariant |flushed| % DELETE_BATCH_SIZE == 0 && |queue| < DELETE_BATCH_SIZE
        invariant expired == flushed + queue
        invariant Scan(expired, totalSize, ttlDeletedSize, candidates) == ScanOf(seen, limits, now)
        invariant store.Issued(objects0, calls0, Chunks(flushed))
      {
        var obj := page[i];
        ScanOfSnoc(seen, obj, limits, now);
        TakeStep(seen0, page, i);
        seen := seen + [obj];
        if !Counted(obj) {
          continue;
        }
        totalSize := totalSize + obj.size;
        if !obj.modified.At? {
          continue;
        }
        if Expired(obj, limits, now) {
          ttlDeletedSize := ttlDeletedSize + obj.size;
          expired := expired + [obj.key];
          queue, flushed := Enqueue(objects0, calls0, flushed, queue, obj.key);
          continue;
        }
        candidates := candidates + [obj];
      }
      assert page[..|page|] == page;
    }

    /** The eviction loop over candidates sorted oldest-first. */
    method EvictOldest(sorted: seq<Listed>, total: int)
      modifies store
      ensures VictimCount(sorted, total, limits.maxBytes) <= |sorted|
      ensures store.Issued(old(store.objects), old(store.calls),
                           Chunks(Keys(sorted[..VictimCount(sorted, total, limits.maxBytes)])))
    {
      VictimCountBound(sorted, total, limits.maxBytes);
      var remaining := total;
      var batch: seq<string> := [];
      ghost var flushed: seq<string> := [];
      var i := 0;
      assert sorted[0..] == sorted;
      while i < |sorted|
        invariant 0 <= i <= |sorted|
        invariant |flushed| % DELETE_BATCH_SIZE == 0 && |batch| < DELETE_BATCH_SIZE
        invariant flushed + batch == Keys(sorted[..i])
        invariant VictimCount(sorted, total, limits.maxBytes) == i + VictimCount(sorted[i..], remaining, limits.maxBytes)
        invariant store.Issued(old(store.objects), old(store.calls), Chunks(flushed))
      {
        if remaining <= limits.maxBytes {
          break;
        }
        assert sorted[i..][1..] == sorted[i + 1..];
        assert sorted[..i + 1] == sorted[..i] + [sorted[i]];
        KeysSnoc(sorted[..i], sorted[i]);
        batch, flushed := Enqueue(old(store.objects), old(store.calls), flushed, batch, sorted[i].key);
        remaining := remaining - sorted[i].size;
        i := i + 1;
      }
      if batch != [] {
        Flush(old(store.objects), old(store.calls), flushed, batch);
      } else {
        assert flushed + batch == flushed;
      }
    }
  }

  // -------------------------------------------------------- small lemmas

  /** The accumulators of the listing loop. */
  datatype Scan = Scan(expiredKeys: seq<string>, totalSize: int, ttlDeletedSize: int, candidates: seq<Listed>)

  /** The effect of one listed object on the accumulators. */
  function Observe(scan: Scan, obj: Listed, limits: Limits, now: int): Scan {
    if !Counted(obj) then scan
    else if Expired(obj, limits, now) then
      scan.(expiredKeys := scan.expiredKeys + [obj.key], totalSize := scan.totalSize + obj.size,
            ttlDeletedSize := scan.ttlDeletedSize + obj.size)
    else if Dated(obj) then
      scan.(totalSize := scan.totalSize + obj.size, candidates := scan.candidates + [obj])
    else
      scan.(totalSize := scan.totalSize + obj.size)
  }

  function ScanOf(seen: seq<Listed>, limits: Limits, now: int): Scan {
    if seen == [] then Scan([], 0, 0, [])
    else Observe(ScanOf(seen[..|seen| - 1], limits, now), seen[|seen| - 1], limits, now)
  }

  lemma ScanOfSnoc(seen: seq<Listed>, obj: Listed, limits: Limits, now: int)
    ensures ScanOf(seen + [obj], limits, now) == Observe(ScanOf(seen, limits, now), obj, limits, now)
  {
  }

  /** What the accumulators mean: totals and filters over everything seen. */
  lemma {:induction false} ScanMeaning(seen: seq<Listed>, limits: Limits, now: int)
    ensures ScanOf(seen, limits, now) == Summary(seen, limits, now)
  {
    if seen != [] {
      var init, obj := seen[..|seen| - 1], seen[|seen| - 1];
      ScanMeaning(init, limits, now);
      SummarySnoc(init, obj, limits, now);
      assert seen == init + [obj];
    }
  }

  function Summary(seen: seq<Listed>, limits: Limits, now: int): Scan {
    Scan(Keys(ExpiredObjects(seen, limits, now)), TotalSize(Filter(seen, IsCounted())),
         TotalSize(ExpiredObjects(seen, limits, now)), Filter(seen, IsCandidate(limits, now)))
  }

  lemma SummarySnoc(init: seq<Listed>, obj: Listed, limits: Limits, now: int)
    ensures Summary(init + [obj], limits, now) == Observe(Summary(init, limits, now), obj, limits, now)
  {
    CountedSnoc(init, obj);
    ExpiredSnoc(init, obj, limits, now);
    CandidateSnoc(init, obj, limits, now);
    ObserveIs(Summary(init, limits, now), Summary(init + [obj], limits, now), obj, limits, now);
  }

  /** Observing an object, field by field. */
  lemma ObserveIs(before: Scan, after: Scan, obj: Listed, limits: Limits, now: int)
    requires after.expiredKeys == if Expired(obj, limits, now) then before.expiredKeys + [obj.key] else before.expiredKeys
    requires after.totalSize == before.totalSize + (if Counted(obj) then obj.size else 0)
    requires after.ttlDeletedSize == before.ttlDeletedSize + (if Expired(obj, limits, now) then obj.size else 0)
    requires after.candidates == if Dated(obj) && !Expired(obj, limits, now) then before.candidates + [obj] else before.candidates
    ensures after == Observe(before, obj, limits, now)
  {
  }

  lemma CandidateSnoc(seen: seq<Listed>, obj: Listed, limits: Limits, now: int)
    ensures Filter(seen + [obj], IsCandidate(limits, now))
         == if Dated(obj) && !Expired(obj, limits, now) then Filter(seen, IsCandidate(limits, now)) + [obj]
            else Filter(seen, IsCandidate(limits, now))
  {
    FilterSnoc(seen, obj, IsCandidate(limits, now));
  }

  /** The plan once the scan has its totals: evict only when the guard allows it. */
  lemma PlanSplit(listing: seq<Listed>, limits: Limits, now: int, candidates: seq<Listed>, remaining: int)
    requires candidates == Filter(listing, IsCandidate(limits, now))
    requires remaining == Unexpired(listing, limits, now)
    ensures !(remaining > limits.maxBytes && candidates != []) ==>
              Plan(listing, limits, now) == Chunks(Keys(ExpiredObjects(listing, limits, now)))
    ensures var sorted := Sort(candidates, OldestFirst());
            VictimCount(sorted, remaining, limits.maxBytes) <= |sorted| &&
            Victims(listing, limits, now) == sorted[..VictimCount(sorted, remaining, limits.maxBytes)]
  {
    VictimCountBound(Candidates(listing, limits, now), remaining, limits.maxBytes);
    if !(remaining > limits.maxBytes && candidates != []) {
      assert Victims(listing, limits, now) == [];
      assert Keys([]) == [];
    }
  }

  lemma CountedSnoc(seen: seq<Listed>, obj: Listed)
    ensures TotalSize(Filter(seen + [obj], IsCounted()))
         == TotalSize(Filter(seen, IsCounted())) + (if Counted(obj) then obj.size else 0)
  {
    FilterSnoc(seen, obj, IsCounted());
    TotalSizeSnoc(Filter(seen, IsCounted()), obj);
  }

  lemma ExpiredSnoc(seen: seq<Listed>, obj: Listed, limits: Limits, now: int)
    ensures var before, after := ExpiredObjects(seen, limits, now), ExpiredObjects(seen + [obj], limits, now);
            && Keys(after) == (if Expired(obj, limits, now) then Keys(before) + [obj.key] else Keys(before))
            && TotalSize(after) == TotalSize(before) + (if Expired(obj, limits, now) then obj.size else 0)
  {
    FilterSnoc(seen, obj, IsExpired(limits, now));
    TotalSizeSnoc(ExpiredObjects(seen, limits, now), obj);
    KeysSnoc(ExpiredObjects(seen, limits, now), obj);
  }

  lemma TotalSizeSnoc(a: seq<Listed>, o: Listed)
    ensures TotalSize(a + [o]) == TotalSize(a) + o.size
  {
  }

  function ChunksFrom(keys: seq<string>, idx: nat): seq<seq<string>> {
    if idx < |keys| then Chunks(keys[idx..]) else []
  }

  lemma ChunksFromStep(keys: seq<string>, idx: nat, plan: seq<seq<string>>, slice: seq<string>)
    requires idx < |keys|
    requires slice == keys[idx..if idx + DELETE_BATCH_SIZE < |keys| then idx + DELETE_BATCH_SIZE else |keys|]
    ensures plan + ChunksFrom(keys, idx) == plan + [slice] + ChunksFrom(keys, idx + DELETE_BATCH_SIZE)
  {
    var tail := keys[idx..];
    if idx + DELETE_BATCH_SIZE < |keys| {
      assert tail[..DELETE_BATCH_SIZE] == keys[idx..idx + DELETE_BATCH_SIZE];
      assert tail[DELETE_BATCH_SIZE..] == keys[idx + DELETE_BATCH_SIZE..];
    } else {
      assert tail == keys[idx..|keys|];
    }
  }

  lemma AppendAssociates(a: seq<string>, b: seq<string>, c: seq<string>)
    ensures a + b + c == a + (b + c)
  {
  }

  lemma FlushedWhole(sent: seq<string>, queue: seq<string>)
    requires |sent| % DELETE_BATCH_SIZE == 0 && |queue| == DELETE_BATCH_SIZE
    ensures |sent + queue| % DELETE_BATCH_SIZE == 0
    ensures sent + queue + [] == sent + queue
  {
  }

  lemma KeysSnoc(a: seq<Listed>, o: Listed)
    ensures Keys(a + [o]) == Keys(a) + [o.key]
  {
  }

  lemma {:induction false} TotalSizeConcat(a: seq<Listed>, b: seq<Listed>)
    ensures TotalSize(a + b) == TotalSize(a) + TotalSize(b)
  {
    if b == [] {
      assert a + b == a;
    } else {
      assert (a + b)[..|a + b| - 1] == a + b[..|b| - 1];
      TotalSizeConcat(a, b[..|b| - 1]);
    }
  }

  /** Whole requests already sent do not change how later keys are cut. */
  lemma {:induction false} ChunksConcat(a: seq<string>, b: seq<string>)
    requires |a| % DELETE_BATCH_SIZE == 0
    ensures Chunks(a + b) == Chunks(a) + Chunks(b)
    decreases |a|
  {
    if a == [] {
      assert a + b == b;
    } else if b == [] {
      assert a + b == a;
    } else {
      assert |a| >= DELETE_BATCH_SIZE;
      var head, tail := a[..DELETE_BATCH_SIZE], a[DELETE_BATCH_SIZE..];
      assert (a + b)[..DELETE_BATCH_SIZE] == head;
      assert (a + b)[DELETE_BATCH_SIZE..] == tail + b;
      ChunksConcat(tail, b);
      if tail == [] {
        assert a == head;
        assert Chunks(a) == [head] + Chunks(tail);
      }
    }
  }
}
