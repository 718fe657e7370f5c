/** Uploading a file: cache, quota, and the rows a new scan creates
    (app/api/v1/scan.py). A request is one atomic transaction. */
module Upload {
  import opened Payloads
  import opened RateLimit

  const PENDING := "pending..."

  /** Statuses that send a repeated upload to a new scan. */
  predicate Failed(status: string) { status == "error" || status == "done_with_errors" }

  datatype JobRow = JobRow(digest: string, key: Option<string>, status: string, createdAt: int)

  /** Files by digest with their stored name, jobs in creation order, the usage
      rows (key, job), and the quota counters. */
  datatype Store = Store(files: map<string, string>, jobs: seq<JobRow>, usages: set<(string, nat)>, counters: Counters)

  datatype ApiKey = ApiKey(id: string, limit: int)

  datatype Request = Request(digest: string, filename: string, key: Option<ApiKey>, now: int, executed: int,
                             redis: Option<RedisCall>, fits: bool)

  datatype Reply = Cached(job: nat, status: string) | LimitExceeded(limit: int, retryAfter: nat) | TooLarge | Queued(job: nat)

  function KeyId(key: Option<ApiKey>): Option<string> { if key.Some? then Some(key.value.id) else None }

  function AttemptOf(r: Request): Attempt
    requires r.key.Some?
  {
    Attempt(r.key.value.id, r.key.value.limit, r.now, r.executed, r.redis)
  }

  predicate Matches(job: JobRow, digest: string, key: Option<string>) { job.digest == digest && job.key == key }

  /** The newest matching job; among equally new ones the first created. */
  function Latest(jobs: seq<JobRow>, digest: string, key: Option<string>): (latest: Option<nat>)
    ensures latest.Some? ==> latest.value < |jobs| && Matches(jobs[latest.value], digest, key)
  {
    if jobs == [] then None
    else
      var n := |jobs| - 1;
      var before := Latest(jobs[..n], digest, key);
      if Matches(jobs[n], digest, key) && (before.None? || jobs[n].createdAt > jobs[before.value].createdAt) then Some(n)
      else before
  }

  /** The stored name of a known file is filled in when it was missing. */
  function Named(s: Store, r: Request): Store {
    if r.digest in s.files && s.files[r.digest] == "" && r.filename != "" then
      s.(files := s.files[r.digest := r.filename])
    else s
  }

  function Counted(s: Store, r: Request): (Store, bool) {
    if r.key.None? then (s, true)
    else
      var (counters, allowed) := Consume(s.counters, AttemptOf(r));
      (s.(counters := counters), allowed)
  }

  function WithNewJob(s: Store, r: Request): Store {
    Store(if r.digest in s.files then s.files else s.files[r.digest := r.filename],
          s.jobs + [JobRow(r.digest, KeyId(r.key), PENDING, r.now)],
          if r.key.Some? then s.usages + {(r.key.value.id, |s.jobs|)} else s.usages,
          s.counters)
  }

  predicate IsCached(s: Store, r: Request) {
    r.digest in s.files &&
    var latest := Latest(s.jobs, r.digest, KeyId(r.key));
    latest.Some? && !Failed(s.jobs[latest.value].status)
  }

  function Handle(s: Store, r: Request): (Store, Reply) {
    var named := Named(s, r);
    if IsCached(s, r) then
      var j := Latest(s.jobs, r.digest, KeyId(r.key)).value;
      (named, Cached(j, s.jobs[j].status))
    else
      var (counted, allowed) := Counted(named, r);
      if !allowed then (counted, LimitExceeded(r.key.value.limit, RetryAfter(r.now)))
      else if !r.fits then (counted, TooLarge)
      else (WithNewJob(counted, r), Queued(|s.jobs|))
  }

  class UploadDesk {
    var files: map<string, string>
    var jobs: seq<JobRow>
    var usages: set<(string, nat)>
    const limiter: RateLimiter

    constructor (limiter: RateLimiter)
      ensures this.limiter == limiter
      ensures State() == Store(map[], [], {}, limiter.State())
    {
      files, jobs, usages := map[], [], {};
      this.limiter := limiter;
    }

    function State(): Store
      reads this, limiter
    {
      Store(files, jobs, usages, limiter.State())
    }

    method FindLatest(digest: string, key: Option<string>) returns (latest: Option<nat>)
      ensures latest == Latest(jobs, digest, key)
    {
      latest := None;
      for i := 0 to |jobs|
        invariant latest == Latest(jobs[..i], digest, key)
      {
        assert jobs[..i + 1][..i] == jobs[..i];
        if Matches(jobs[i], digest, key) && (latest.None? || jobs[i].createdAt > jobs[latest.value].createdAt) {
          latest := Some(i);
        }
      }
      assert jobs[..|jobs|] == jobs;
    }

    method UploadFile(r: Request) returns (reply: Reply)
      modifies this, limiter
      ensures (State(), reply) == Handle(old(State()), r)
    {
      if r.digest in files {
        if files[r.digest] == "" && r.filename != "" {
          files := files[r.digest := r.filename];
        }
        var latest := FindLatest(r.digest, KeyId(r.key));
        if latest.Some? && !Failed(jobs[latest.value].status) {
          return Cached(latest.value, jobs[latest.value].status);
        }
      }
      if r.key.Some? {
        var decision := limiter.CheckRateLimit(true, AttemptOf(r), true);
        if decision.Exceeded? {
          return LimitExceeded(decision.limit, decision.retryAfter);
        }
      }
      if !r.fits {
        return TooLarge;
      }
      if r.digest !in files {
        files := files[r.digest := r.filename];
      }
      jobs := jobs + [JobRow(r.digest, KeyId(r.key), PENDING, r.now)];
      if r.key.Some? {
        usages := usages + {(r.key.value.id, |jobs| - 1)};
      }
      reply := Queued(|jobs| - 1);
    }
  }

  // ------------------------------------------------------------------ runs

  /** An upload, or a worker changing a job's status. */
  datatype Event = Arrives(request: Request) | Moves(job: nat, status: string)

  /** The clock is ahead of every earlier job of the same file and key; limits
      per key do not change; calls are timely; failed jobs stay failed. */
  predicate Admissible(s: Store, e: Event, limits: string -> int) {
    match e
    case Arrives(r) =>
      && (forall i | 0 <= i < |s.jobs| && Matches(s.jobs[i], r.digest, KeyId(r.key)) :: s.jobs[i].createdAt < r.now)
      && (r.key.Some? ==> r.key.value.limit == limits(r.key.value.id) && Timely(AttemptOf(r)))
    case Moves(j, status) => j < |s.jobs| && (Failed(s.jobs[j].status) ==> Failed(status))
  }

  function Next(s: Store, e: Event): Store {
    match e
    case Arrives(r) => Handle(s, r).0
    case Moves(j, status) => if j < |s.jobs| then s.(jobs := s.jobs[j := s.jobs[j].(status := status)]) else s
  }

  function After(s: Store, events: seq<Event>, limits: string -> int): Option<Store> {
    if events == [] then Some(s)
    else
      match After(s, events[..|events| - 1], limits)
      case None => None
      case Some(mid) =>
        if Admissible(mid, events[|events| - 1], limits) then Some(Next(mid, events[|events| - 1])) else None
  }

  const EMPTY := Store(map[], [], {}, Counters(map[], map[]))

  // ------------------------------------------------------------ invariants

  /** Jobs of one file and key are created at rising times, and all but the
      newest have failed. */
  predicate OnlyNewestLive(s: Store) {
    forall i, j | 0 <= i < j < |s.jobs| && Matches(s.jobs[j], s.jobs[i].digest, s.jobs[i].key) ::
      s.jobs[i].createdAt < s.jobs[j].createdAt && Failed(s.jobs[i].status)
  }

  predicate Linked(s: Store) {
    forall i | 0 <= i < |s.jobs| ::
      && s.jobs[i].digest in s.files
      && (s.jobs[i].key.Some? ==> (s.jobs[i].key.value, i) in s.usages)
  }

  /** Jobs created for a key on a day. */
  function JobsOn(jobs: seq<JobRow>, slot: Slot): nat {
    if jobs == [] then 0
    else
      var last := jobs[|jobs| - 1];
      JobsOn(jobs[..|jobs| - 1], slot) + (if last.key == Some(slot.key) && DayOf(last.createdAt) == slot.day then 1 else 0)
  }

  predicate QuotaOk(s: Store, slot: Slot, limit: int) {
    && Lasting(s.counters, slot)
    && JobsOn(s.jobs, slot) <= Min(InMemory(s.counters, slot), limit) + Min(RedisCount(s.counters, slot), limit)
  }

  lemma {:induction false} LatestIsNewest(jobs: seq<JobRow>, digest: string, key: Option<string>)
    requires forall i, j | 0 <= i < j < |jobs| && Matches(jobs[j], jobs[i].digest, jobs[i].key) :: jobs[i].createdAt < jobs[j].createdAt
    ensures Latest(jobs, digest, key).None? ==> forall i | 0 <= i < |jobs| :: !Matches(jobs[i], digest, key)
    ensures Latest(jobs, digest, key).Some? ==>
              forall i | Latest(jobs, digest, key).value < i < |jobs| :: !Matches(jobs[i], digest, key)
  {
    if jobs != [] {
      LatestIsNewest(jobs[..|jobs| - 1], digest, key);
    }
  }

  /** A request adds one job or none, and consumes quota unless it is cached
      or anonymous. */
  lemma HandleShape(s: Store, r: Request)
    ensures var (s', reply) := Handle(s, r);
            && s'.jobs == (if reply.Queued? then s.jobs + [JobRow(r.digest, KeyId(r.key), PENDING, r.now)] else s.jobs)
            && s'.counters == (if reply.Cached? || r.key.None? then s.counters else Consume(s.counters, AttemptOf(r)).0)
            && (reply.Queued? && r.key.Some? ==> Consume(s.counters, AttemptOf(r)).1)
            && (reply.Queued? ==> !IsCached(s, r))
  {
  }

  lemma AppendKeepsOrder(s: Store, r: Request)
    requires OnlyNewestLive(s) && Linked(s) && !IsCached(s, r)
    requires forall i | 0 <= i < |s.jobs| && Matches(s.jobs[i], r.digest, KeyId(r.key)) :: s.jobs[i].createdAt < r.now
    ensures OnlyNewestLive(s.(jobs := s.jobs + [JobRow(r.digest, KeyId(r.key), PENDING, r.now)]))
  {
    LatestIsNewest(s.jobs, r.digest, KeyId(r.key));
    var latest := Latest(s.jobs, r.digest, KeyId(r.key));
    forall i | 0 <= i < |s.jobs| && Matches(s.jobs[i], r.digest, KeyId(r.key)) ensures Failed(s.jobs[i].status) {
      if i < latest.value {
        assert Matches(s.jobs[latest.value], s.jobs[i].digest, s.jobs[i].key);
      }
    }
  }

  lemma UploadKeepsLinks(s: Store, r: Request)
    requires Linked(s)
    ensures Linked(Handle(s, r).0)
  {
  }

  lemma UploadKeepsOrder(s: Store, r: Request, limits: string -> int)
    requires OnlyNewestLive(s) && Linked(s) && Admissible(s, Arrives(r), limits)
    ensures OnlyNewestLive(Handle(s, r).0) && Linked(Handle(s, r).0)
  {
    HandleShape(s, r);
    UploadKeepsLinks(s, r);
    if Handle(s, r).1.Queued? {
      AppendKeepsOrder(s, r);
    }
  }

  lemma MoveKeepsOrder(s: Store, j: nat, status: string, limits: string -> int)
    requires OnlyNewestLive(s) && Linked(s) && Admissible(s, Moves(j, status), limits)
    ensures OnlyNewestLive(Next(s, Moves(j, status))) && Linked(Next(s, Moves(j, status)))
  {
  }

  lemma {:induction false} RunKeepsOrder(s: Store, events: seq<Event>, limits: string -> int)
    requires OnlyNewestLive(s) && Linked(s) && After(s, events, limits).Some?
    ensures OnlyNewestLive(After(s, events, limits).value) && Linked(After(s, events, limits).value)
  {
    if events != [] {
      var init, last := events[..|events| - 1], events[|events| - 1];
      RunKeepsOrder(s, init, limits);
      var mid := After(s, init, limits).value;
      match last
      case Arrives(r) => UploadKeepsOrder(mid, r, limits);
      case Moves(j, status) => MoveKeepsOrder(mid, j, status, limits);
    }
  }

  /** After any sequence of uploads and worker moves, a file has at most one job
      per key, anonymous uploads counting as one key, that has not failed. */
  lemma AtMostOneLiveJob(events: seq<Event>, limits: string -> int, i: nat, j: nat)
    requires After(EMPTY, events, limits).Some?
    requires var jobs := After(EMPTY, events, limits).value.jobs;
             && i < |jobs| && j < |jobs| && Matches(jobs[j], jobs[i].digest, jobs[i].key)
             && !Failed(jobs[i].status) && !Failed(jobs[j].status)
    ensures i == j
  {
    RunKeepsOrder(EMPTY, events, limits);
  }

  /** A reply is cached exactly when some job of the same file and key has not
      failed; it names such a job and costs nothing: no quota, no job, no usage
      row. */
  lemma CachedRepliesAreFree(s: Store, r: Request)
    requires OnlyNewestLive(s) && Linked(s)
    ensures Handle(s, r).1.Cached? <==>
              exists i :: 0 <= i < |s.jobs| && Matches(s.jobs[i], r.digest, KeyId(r.key))
                          && s.jobs[i].status !in {"error", "done_with_errors"}
    ensures Handle(s, r).1.Cached? ==>
              var (s', reply) := Handle(s, r);
              && reply.job < |s.jobs| && s.jobs[reply.job].digest == r.digest
              && s.jobs[reply.job].key == (if r.key.Some? then Some(r.key.value.id) else None)
              && reply.status == s.jobs[reply.job].status && reply.status !in {"error", "done_with_errors"}
              && s'.counters == s.counters && s'.jobs == s.jobs && s'.usages == s.usages
  {
    LatestIsNewest(s.jobs, r.digest, KeyId(r.key));
    var latest := Latest(s.jobs, r.digest, KeyId(r.key));
    forall i | 0 <= i < |s.jobs| && Matches(s.jobs[i], r.digest, KeyId(r.key))
      ensures latest.Some? && (i == latest.value || Failed(s.jobs[i].status))
    {
      if i < latest.value {
        assert Matches(s.jobs[latest.value], s.jobs[i].digest, s.jobs[i].key);
      }
    }
  }

  // ----------------------------------------------------------------- quota

  lemma JobsOnSnoc(jobs: seq<JobRow>, job: JobRow, slot: Slot)
    ensures JobsOn(jobs + [job], slot)
         == JobsOn(jobs, slot) + (if job.key == Some(slot.key) && DayOf(job.createdAt) == slot.day then 1 else 0)
  {
  }

  lemma {:induction false} JobsOnMove(jobs: seq<JobRow>, j: nat, status: string, slot: Slot)
    requires j < |jobs|
    ensures JobsOn(jobs[j := jobs[j].(status := status)], slot) == JobsOn(jobs, slot)
  {
    var n := |jobs| - 1;
    if j == n {
      assert jobs[j := jobs[j].(status := status)][..n] == jobs[..n];
    } else {
      assert jobs[j := jobs[j].(status := status)][..n] == jobs[..n][j := jobs[j].(status := status)];
      JobsOnMove(jobs[..n], j, status, slot);
    }
  }

  lemma UploadKeepsQuota(s: Store, r: Request, limits: string -> int, slot: Slot)
    requires Admissible(s, Arrives(r), limits) && limits(slot.key) > 0 && QuotaOk(s, slot, limits(slot.key))
    ensures QuotaOk(Handle(s, r).0, slot, limits(slot.key))
  {
    HandleShape(s, r);
    JobsOnSnoc(s.jobs, JobRow(r.digest, KeyId(r.key), PENDING, r.now), slot);
    if r.key.Some? {
      QuotaStep(s.counters, AttemptOf(r), slot, limits(slot.key));
    }
  }

  /** One consuming check raises the room for jobs by one when it is allowed on
      this slot, and never lowers it. */
  lemma QuotaStep(c: Counters, a: Attempt, slot: Slot, limit: int)
    requires Timely(a) && limit > 0 && Lasting(c, slot) && (SlotOf(a) == slot ==> a.limit == limit)
    ensures var (c', allowed) := Consume(c, a);
            && Lasting(c', slot)
            && Min(InMemory(c', slot), limit) + Min(RedisCount(c', slot), limit)
               >= Min(InMemory(c, slot), limit) + Min(RedisCount(c, slot), limit)
                  + (if allowed && SlotOf(a) == slot then 1 else 0)
  {
    if SlotOf(a) == slot {
      OwnSlotStep(c, a, slot);
    } else {
      OtherSlotsUntouched(c, a, slot);
    }
  }

  lemma {:induction false} RunKeepsQuota(events: seq<Event>, limits: string -> int, slot: Slot)
    requires limits(slot.key) > 0 && After(EMPTY, events, limits).Some?
    ensures QuotaOk(After(EMPTY, events, limits).value, slot, limits(slot.key))
  {
    if events != [] {
      var init, last := events[..|events| - 1], events[|events| - 1];
      RunKeepsQuota(init, limits, slot);
      var mid := After(EMPTY, init, limits).value;
      match last
      case Arrives(r) => UploadKeepsQuota(mid, r, limits, slot);
      case Moves(j, status) => JobsOnMove(mid.jobs, j, status, slot);
    }
  }

  /** Every upload of this key on this day counts on the same backend. */
  predicate OneBackendOnly(events: seq<Event>, slot: Slot, memory: bool) {
    forall i | 0 <= i < |events| ::
      events[i].Arrives? && events[i].request.key.Some? && SlotOf(AttemptOf(events[i].request)) == slot ==>
        if memory then events[i].request.redis.None? else events[i].request.redis == Some(Works)
  }

  lemma {:induction false} OtherBackendIdle(events: seq<Event>, limits: string -> int, slot: Slot, memory: bool)
    requires limits(slot.key) > 0 && After(EMPTY, events, limits).Some? && OneBackendOnly(events, slot, memory)
    ensures var c := After(EMPTY, events, limits).value.counters;
            if memory then RedisCount(c, slot) == 0 else InMemory(c, slot) == 0
  {
    if events != [] {
      var init, last := events[..|events| - 1], events[|events| - 1];
      OtherBackendIdle(init, limits, slot, memory);
      RunKeepsQuota(init, limits, slot);
      var mid := After(EMPTY, init, limits).value;
      if last.Arrives? && last.request.key.Some? {
        IdleStep(mid, last.request, limits, slot, memory);
      }
    }
  }

  lemma IdleStep(s: Store, r: Request, limits: string -> int, slot: Slot, memory: bool)
    requires r.key.Some? && Admissible(s, Arrives(r), limits) && limits(slot.key) > 0 && Lasting(s.counters, slot)
    requires SlotOf(AttemptOf(r)) == slot ==> if memory then r.redis.None? else r.redis == Some(Works)
    requires if memory then RedisCount(s.counters, slot) == 0 else InMemory(s.counters, slot) == 0
    ensures var c := Handle(s, r).0.counters; if memory then RedisCount(c, slot) == 0 else InMemory(c, slot) == 0
  {
    if SlotOf(AttemptOf(r)) == slot {
      OwnSlotStep(s.counters, AttemptOf(r), slot);
    } else {
      OtherSlotsUntouched(s.counters, AttemptOf(r), slot);
    }
  }

  /** Over any sequence of uploads, the jobs created for a key in a day never
      exceed its positive limit while one backend counts, and never twice the
      limit whatever Redis does. */
  lemma JobsStayWithinQuota(events: seq<Event>, limits: string -> int, slot: Slot)
    requires limits(slot.key) > 0 && After(EMPTY, events, limits).Some?
    ensures JobsOn(After(EMPTY, events, limits).value.jobs, slot) <= 2 * limits(slot.key)
    ensures OneBackendOnly(events, slot, true) || OneBackendOnly(events, slot, false) ==>
              JobsOn(After(EMPTY, events, limits).value.jobs, slot) <= limits(slot.key)
  {
    RunKeepsQuota(events, limits, slot);
    if OneBackendOnly(events, slot, true) {
      OtherBackendIdle(events, limits, slot, true);
    } else if OneBackendOnly(events, slot, false) {
      OtherBackendIdle(events, limits, slot, false);
    }
  }

  // ------------------------------------------------- when the cache misses

  /** The latest job is the newest matching one, the first among equals. */
  lemma {:induction false} LatestMeaning(jobs: seq<JobRow>, digest: string, key: Option<string>)
    ensures var latest := Latest(jobs, digest, key);
            && (latest.None? <==> forall i | 0 <= i < |jobs| :: !Matches(jobs[i], digest, key))
            && (latest.Some? ==> forall i | 0 <= i < |jobs| && Matches(jobs[i], digest, key) ::
                  !Newer(jobs, i, latest.value))
  {
    if jobs != [] {
      LatestMeaning(jobs[..|jobs| - 1], digest, key);
    }
  }

  /** Whether job `i` goes before job `j` when the newest is looked for. */
  predicate Newer(jobs: seq<JobRow>, i: nat, j: nat)
    requires i < |jobs| && j < |jobs|
  {
    jobs[i].createdAt > jobs[j].createdAt || (jobs[i].createdAt == jobs[j].createdAt && i < j)
  }

  predicate LiveMatch(s: Store, r: Request, i: nat) {
    i < |s.jobs| && Matches(s.jobs[i], r.digest, KeyId(r.key)) && !Failed(s.jobs[i].status)
  }

  /** Some failed job of this file and key goes before every live one. */
  predicate Overshadowed(s: Store, r: Request) {
    exists f :: 0 <= f < |s.jobs| && Matches(s.jobs[f], r.digest, KeyId(r.key)) && Failed(s.jobs[f].status)
                && forall i | 0 <= i < |s.jobs| && LiveMatch(s, r, i) :: Newer(s.jobs, f, i)
  }

  /** In any store, a live job of the file and key is overlooked iff a failed one
      goes before all of them: it is newer, or as new and created earlier. */
  lemma CacheMissesExactlyWhenOvershadowed(s: Store, r: Request, live: nat)
    requires Linked(s) && LiveMatch(s, r, live)
    ensures !Handle(s, r).1.Cached? <==> Overshadowed(s, r)
  {
    LatestMeaning(s.jobs, r.digest, KeyId(r.key));
    var latest := Latest(s.jobs, r.digest, KeyId(r.key));
    if Failed(s.jobs[latest.value].status) {
      forall i | 0 <= i < |s.jobs| && LiveMatch(s, r, i)
        ensures Newer(s.jobs, latest.value, i)
      {
        assert !Newer(s.jobs, i, latest.value);
      }
    } else {
      assert LiveMatch(s, r, latest.value);
    }
  }

  /** An anonymous upload of a file that fits. */
  function Anonymous(digest: string, now: int): Request { Request(digest, "", None, now, now, None, true) }

  function Follow(s: Store, events: seq<Event>): Store
    decreases |events|
  {
    if events == [] then s else Follow(Next(s, events[0]), events[1..])
  }

  /** A clock that does not advance does it: a scan fails, the next upload is
      stamped at the same instant or earlier, and the one after that overlooks
      its job and starts a second live one. */
  lemma SlowClockMissesTheCache(digest: string, first: int, second: int, third: int) returns (s: Store)
    requires second <= first
    ensures s == Follow(EMPTY, [Arrives(Anonymous(digest, first)), Moves(0, "error"), Arrives(Anonymous(digest, second))])
    ensures |s.jobs| == 2 && LiveMatch(s, Anonymous(digest, third), 1)
    ensures Overshadowed(s, Anonymous(digest, third)) && Handle(s, Anonymous(digest, third)).1 == Queued(2)
  {
    s := FollowThree(EMPTY, Arrives(Anonymous(digest, first)), Moves(0, "error"), Arrives(Anonymous(digest, second)));
    assert s.jobs == [JobRow(digest, None, "error", first), JobRow(digest, None, PENDING, second)] by {
      FirstUpload(digest, first);
      SecondUpload(digest, first, second);
    }
    assert s.jobs[..1][..0] == [];
    assert Latest(s.jobs[..1], digest, None) == Some(0);
    assert Latest(s.jobs, digest, None) == Some(0);
    CacheMissesExactlyWhenOvershadowed(s, Anonymous(digest, third), 1);
  }

  lemma FollowThree(s: Store, a: Event, b: Event, c: Event) returns (t: Store)
    ensures t == Follow(s, [a, b, c]) == Next(Next(Next(s, a), b), c)
  {
    assert [a, b, c][1..] == [b, c] && [b, c][1..] == [c] && [c][1..] == [];
    t := Follow(s, [a, b, c]);
    assert Follow(Next(s, a), [b, c]) == Follow(Next(Next(s, a), b), [c]);
    assert Follow(Next(Next(s, a), b), [c]) == Follow(Next(Next(Next(s, a), b), c), []);
  }

  lemma FirstUpload(digest: string, at: int)
    ensures Next(EMPTY, Arrives(Anonymous(digest, at)))
         == Store(map[digest := ""], [JobRow(digest, None, PENDING, at)], {}, EMPTY.counters)
  {
  }

  /** A failed job does not stop a second one. */
  lemma SecondUpload(digest: string, first: int, at: int)
    ensures var failed := Store(map[digest := ""], [JobRow(digest, None, "error", first)], {}, EMPTY.counters);
            Next(failed, Arrives(Anonymous(digest, at)))
            == failed.(jobs := [JobRow(digest, None, "error", first), JobRow(digest, None, PENDING, at)])
  {
    var jobs := [JobRow(digest, None, "error", first)];
    assert jobs[..0] == [];
    assert Latest(jobs, digest, None) == Some(0);
  }

  lemma ReviveFirst(t: Store, digest: string, now: int)
    requires t.jobs == [JobRow(digest, None, "error", now), JobRow(digest, None, PENDING, now + 1)]
    ensures Next(t, Moves(0, "done")).jobs == [JobRow(digest, None, "done", now), JobRow(digest, None, PENDING, now + 1)]
  {
  }

  /** That failed jobs stay failed is needed too: a job that is done after all
      leaves two live jobs of one file. */
  lemma RevivedJobIsASecondLiveOne(digest: string, now: int) returns (s: Store)
    ensures s == Next(Follow(EMPTY, [Arrives(Anonymous(digest, now)), Moves(0, "error"), Arrives(Anonymous(digest, now + 1))]),
                      Moves(0, "done"))
    ensures |s.jobs| == 2 && s.jobs[0].createdAt < s.jobs[1].createdAt
    ensures LiveMatch(s, Anonymous(digest, now + 2), 0) && LiveMatch(s, Anonymous(digest, now + 2), 1)
  {
    var t := FollowThree(EMPTY, Arrives(Anonymous(digest, now)), Moves(0, "error"), Arrives(Anonymous(digest, now + 1)));
    FirstUpload(digest, now);
    SecondUpload(digest, now, now + 1);
    assert t.jobs == [JobRow(digest, None, "error", now), JobRow(digest, None, PENDING, now + 1)];
    ReviveFirst(t, digest, now);
    s := Next(t, Moves(0, "done"));
  }

  // ----------------------------------------------------- what a request leaves

  /** An upload that is accepted adds one pending job of that file, key and time,
      with a usage row for its key, and the file if it is new. */
  lemma QueuedMeaning(s: Store, r: Request)
    requires Handle(s, r).1.Queued?
    ensures var (s', reply) := Handle(s, r);
            && reply.job == |s.jobs|
            && s'.jobs == s.jobs + [JobRow(r.digest, if r.key.Some? then Some(r.key.value.id) else None, "pending...", r.now)]
            && s'.usages == (if r.key.Some? then s.usages + {(r.key.value.id, |s.jobs|)} else s.usages)
            && s'.files.Keys == s.files.Keys + {r.digest}
            && r.fits
  {
  }

  /** A request changes the name of its own file at most: a new file takes the
      name it comes with, and a known one without a name is given it. */
  lemma FileNames(s: Store, r: Request, digest: string)
    requires digest in Handle(s, r).0.files
    ensures var s' := Handle(s, r).0;
            if digest in s.files then
              s'.files[digest] == if digest == r.digest && s.files[digest] == "" then r.filename else s.files[digest]
            else digest == r.digest && Handle(s, r).1.Queued? && s'.files[digest] == r.filename
  {
  }

  /** A request that is not cached is answered by the quota first and the size
      second: it counts against the quota either way and leaves no job. */
  lemma RefusedMeaning(s: Store, r: Request)
    requires !Handle(s, r).1.Cached?
    ensures var (s', reply) := Handle(s, r);
            && (r.key.Some? ==> AttemptOf(r) == Attempt(r.key.value.id, r.key.value.limit, r.now, r.executed, r.redis))
            && (reply.LimitExceeded? <==> r.key.Some? && !Consume(s.counters, AttemptOf(r)).1)
            && (reply.TooLarge? <==> !reply.LimitExceeded? && !r.fits)
            && (reply.LimitExceeded? ==> reply.limit == r.key.value.limit && reply.retryAfter == RetryAfter(r.now))
            && (reply.LimitExceeded? || reply.TooLarge? ==> s'.jobs == s.jobs && s'.usages == s.usages && s'.files.Keys == s.files.Keys)
            && s'.counters == if r.key.Some? then Consume(s.counters, AttemptOf(r)).0 else s.counters
  {
  }
}
