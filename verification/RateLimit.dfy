/** Daily quota per API key, counted in Redis with an in-memory fallback
    (app/core/rate_limit.py). Instants are microseconds since the epoch. */
module RateLimit {
  import opened Payloads

  const MICROS := 1_000_000
  const MICROS_PER_DAY := 86_400_000_000
  const TTL_SLACK_SECONDS := 60

  /** One key on one UTC day. */
  datatype Slot = Slot(key: string, day: int)

  /** A Redis counter; it is gone once its deadline has passed. */
  datatype Entry = Entry(count: nat, deadline: Option<int>)

  datatype Counters = Counters(memory: map<Slot, nat>, redis: map<Slot, Entry>)

  function DayOf(now: int): int { now / MICROS_PER_DAY }

  function DayEnd(day: int): int { (day + 1) * MICROS_PER_DAY }

  /** Whole seconds until the next UTC midnight. */
  function RetryAfter(now: int): nat
  {
    var seconds := (DayEnd(DayOf(now)) - now) / MICROS;
    if seconds >= 0 then seconds else 0
  }

  /** How a Redis round trip goes: it works, the increment never happens, it
      happens but its reply is lost, or only setting the expiry fails. */
  datatype RedisCall = Works | IncrFails | ReplyLost | ExpireFails

  /** One consuming check: made at `now` by the service's clock, executed by
      Redis at `executed`; `redis` is absent on the memory backend. */
  datatype Attempt = Attempt(key: string, limit: int, now: int, executed: int, redis: Option<RedisCall>)

  function SlotOf(a: Attempt): Slot { Slot(a.key, DayOf(a.now)) }

  function InMemory(c: Counters, slot: Slot): nat { if slot in c.memory then c.memory[slot] else 0 }

  predicate Alive(c: Counters, slot: Slot, at: int) {
    slot in c.redis && (c.redis[slot].deadline.None? || at < c.redis[slot].deadline.value)
  }

  function InRedis(c: Counters, slot: Slot, at: int): nat { if Alive(c, slot, at) then c.redis[slot].count else 0 }

  function CountInMemory(c: Counters, a: Attempt): (Counters, bool) {
    var count := InMemory(c, SlotOf(a)) + 1;
    (c.(memory := c.memory[SlotOf(a) := count]), count <= a.limit)
  }

  /** The counters after an increment, with the expiry set or not. */
  function Increment(c: Counters, a: Attempt, expires: bool): Counters {
    var slot := SlotOf(a);
    var count := InRedis(c, slot, a.executed) + 1;
    var deadline := if count > 1 then c.redis[slot].deadline
                    else if expires then Some(a.executed + (RetryAfter(a.now) + TTL_SLACK_SECONDS) * MICROS)
                    else None;
    c.(redis := c.redis[slot := Entry(count, deadline)])
  }

  /** One consuming check: the counters it leaves and whether it is allowed. */
  function Consume(c: Counters, a: Attempt): (Counters, bool) {
    if a.limit <= 0 then (c, true)
    else
      match a.redis
      case None => CountInMemory(c, a)
      case Some(IncrFails) => CountInMemory(c, a)
      case Some(ReplyLost) => CountInMemory(Increment(c, a, false), a)
      case Some(call) =>
        var count := InRedis(c, SlotOf(a), a.executed) + 1;
        if count == 1 && call.ExpireFails? then CountInMemory(Increment(c, a, false), a)
        else (Increment(c, a, true), count <= a.limit)
  }

  datatype Decision = Allowed | Exceeded(limit: int, retryAfter: nat)

  class RateLimiter {
    var memory: map<Slot, nat>
    var redis: map<Slot, Entry>

    constructor ()
      ensures State() == Counters(map[], map[])
    {
      memory, redis := map[], map[];
    }

    function State(): Counters
      reads this
    {
      Counters(memory, redis)
    }

    method CountLocally(a: Attempt) returns (count: nat)
      modifies this`memory
      ensures State() == CountInMemory(old(State()), a).0
      ensures count <= a.limit <==> CountInMemory(old(State()), a).1
    {
      count := (if SlotOf(a) in memory then memory[SlotOf(a)] else 0) + 1;
      memory := memory[SlotOf(a) := count];
    }

    /** `INCR`, then `EXPIRE` on the first count. `None` stands for an exception. */
    method CountInRedis(a: Attempt, call: RedisCall) returns (count: Option<nat>)
      modifies this`redis
      ensures call.IncrFails? ==> State() == old(State()) && count.None?
      ensures !call.IncrFails? ==>
                var n := InRedis(old(State()), SlotOf(a), a.executed) + 1;
                var fails := call.ReplyLost? || (n == 1 && call.ExpireFails?);
                State() == Increment(old(State()), a, !fails) && count == if fails then None else Some(n)
    {
      if call.IncrFails? {
        return None;
      }
      var slot := SlotOf(a);
      var live := slot in redis && (redis[slot].deadline.None? || a.executed < redis[slot].deadline.value);
      var n := (if live then redis[slot].count else 0) + 1;
      var deadline := if n > 1 then redis[slot].deadline else None;
      redis := redis[slot := Entry(n, deadline)];
      if call.ReplyLost? {
        return None;
      }
      if n == 1 {
        if call.ExpireFails? {
          return None;
        }
        redis := redis[slot := Entry(n, Some(a.executed + (RetryAfter(a.now) + TTL_SLACK_SECONDS) * MICROS))];
      }
      count := Some(n);
    }

    /** The check on upload and, with `consume` false, on polling. */
    method CheckRateLimit(known: bool, a: Attempt, consume: bool) returns (d: Decision)
      modifies this
      ensures !known || !consume ==> State() == old(State()) && d == Allowed
      ensures known && consume ==>
                && State() == Consume(old(State()), a).0
                && d == if Consume(old(State()), a).1 then Allowed else Exceeded(a.limit, RetryAfter(a.now))
    {
      if !known {
        return Allowed;
      }
      if a.limit <= 0 {
        return Allowed;
      }
      if !consume {
        return Allowed;
      }
      var count: nat;
      if a.redis.None? {
        count := CountLocally(a);
      } else {
        var counted := CountInRedis(a, a.redis.value);
        if counted.Some? {
          count := counted.value;
        } else {
          count := CountLocally(a);
        }
      }
      d := if count > a.limit then Exceeded(a.limit, RetryAfter(a.now)) else Allowed;
    }
  }

  // ------------------------------------------------------------ read-only

  /** What is left of the quota; nothing to report without a positive limit.
      `readable` says whether a Redis read would succeed. */
  function Remaining(c: Counters, key: string, limit: int, now: int, executed: int, redis: bool, readable: bool): Option<nat> {
    if limit <= 0 then None
    else
      var slot := Slot(key, DayOf(now));
      var used := if redis && readable then InRedis(c, slot, executed) else InMemory(c, slot);
      Some(if limit > used then limit - used else 0)
  }

  /** Something is left exactly when the next consuming check on the same
      backend is allowed. */
  lemma RemainingPredictsNext(c: Counters, a: Attempt)
    requires a.limit > 0 && (a.redis.None? || a.redis == Some(Works))
    ensures Remaining(c, a.key, a.limit, a.now, a.executed, a.redis.Some?, true).Some?
    ensures Remaining(c, a.key, a.limit, a.now, a.executed, a.redis.Some?, true).value > 0 <==> Consume(c, a).1
  {
  }

  // ----------------------------------------------------------- whole days

  /** A counter set to expire at its first increment outlives its day by more
      than 59 seconds and at most a minute. */
  lemma TtlCoversDay(now: int)
    ensures DayEnd(DayOf(now)) + 59 * MICROS
          < now + (RetryAfter(now) + TTL_SLACK_SECONDS) * MICROS
         <= DayEnd(DayOf(now)) + 60 * MICROS
  {
  }

  /** Redis executes the call no earlier than it is made and within 59 seconds. */
  predicate Timely(a: Attempt) { a.now <= a.executed <= a.now + 59 * MICROS }

  /** Redis keeps the slot's counter until every timely attempt of its day is done. */
  predicate Lasting(c: Counters, slot: Slot) {
    slot in c.redis ==>
      c.redis[slot].deadline.None? || c.redis[slot].deadline.value > DayEnd(slot.day) + 59 * MICROS
  }

  function Attempts(attempts: seq<Attempt>, slot: Slot): nat {
    if attempts == [] then 0
    else Attempts(attempts[..|attempts| - 1], slot) + (if SlotOf(attempts[|attempts| - 1]) == slot then 1 else 0)
  }

  function Run(c: Counters, attempts: seq<Attempt>): Counters {
    if attempts == [] then c else Consume(Run(c, attempts[..|attempts| - 1]), attempts[|attempts| - 1]).0
  }

  /** How many attempts on a slot were allowed. */
  function Accepted(c: Counters, attempts: seq<Attempt>, slot: Slot): nat {
    if attempts == [] then 0
    else
      var init, last := attempts[..|attempts| - 1], attempts[|attempts| - 1];
      Accepted(c, init, slot) + (if SlotOf(last) == slot && Consume(Run(c, init), last).1 then 1 else 0)
  }

  function Min(a: int, b: int): int { if a <= b then a else b }

  /** A day of traffic for one key: its limit does not change, all attempts are
      timely, and nothing was counted for it before. Other keys are arbitrary. */
  predicate DayOfTraffic(c: Counters, attempts: seq<Attempt>, slot: Slot, limit: int) {
    && limit > 0
    && slot !in c.memory && slot !in c.redis
    && forall i | 0 <= i < |attempts| ::
         Timely(attempts[i]) && (SlotOf(attempts[i]) == slot ==> attempts[i].limit == limit)
  }

  lemma OtherSlotsUntouched(c: Counters, a: Attempt, slot: Slot)
    requires SlotOf(a) != slot
    ensures var c' := Consume(c, a).0;
            && (slot in c'.memory <==> slot in c.memory) && (slot in c.memory ==> c'.memory[slot] == c.memory[slot])
            && (slot in c'.redis <==> slot in c.redis) && (slot in c.redis ==> c'.redis[slot] == c.redis[slot])
  {
  }

  predicate CountsLocally(a: Attempt) { a.redis.None? || a.redis == Some(IncrFails) }

  function RedisCount(c: Counters, slot: Slot): nat { if slot in c.redis then c.redis[slot].count else 0 }

  lemma OwnSlotStep(c: Counters, a: Attempt, slot: Slot)
    requires SlotOf(a) == slot && a.limit > 0 && Timely(a) && Lasting(c, slot)
    ensures var (c', ok) := Consume(c, a);
            var m, r, m', r' := InMemory(c, slot), RedisCount(c, slot), InMemory(c', slot), RedisCount(c', slot);
            && Lasting(c', slot)
            && m <= m' <= m + 1 && r <= r' <= r + 1
            && (m' == m ==> r' == r + 1 && ok == (r' <= a.limit))
            && (m' == m + 1 ==> ok == (m' <= a.limit))
            && (CountsLocally(a) ==> m' == m + 1)
            && (a.redis == Some(Works) ==> m' == m)
  {
    TtlCoversDay(a.now);
    assert a.now < DayEnd(slot.day);
  }

  /** The state of a slot after any traffic: each backend accepted no more than
      it counted, capped at the limit, and the first `limit` attempts all pass. */
  lemma {:induction false} TrafficBounds(c: Counters, attempts: seq<Attempt>, slot: Slot, limit: int)
    requires DayOfTraffic(c, attempts, slot, limit)
    ensures var c', n := Run(c, attempts), Attempts(attempts, slot);
            && Lasting(c', slot)
            && InMemory(c', slot) <= n && RedisCount(c', slot) <= n
            && Min(n, limit) <= Accepted(c, attempts, slot)
            && Accepted(c, attempts, slot) <= Min(InMemory(c', slot), limit) + Min(RedisCount(c', slot), limit)
  {
    if attempts != [] {
      var init, last := attempts[..|attempts| - 1], attempts[|attempts| - 1];
      TrafficBounds(c, init, slot, limit);
      if SlotOf(last) == slot {
        OwnSlotStep(Run(c, init), last, slot);
      } else {
        OtherSlotsUntouched(Run(c, init), last, slot);
      }
    }
  }

  /** With any mixture of Redis failures, one process accepts at least
      min(limit, attempts) and at most twice the limit in a day. */
  lemma AtMostTwiceTheLimit(c: Counters, attempts: seq<Attempt>, slot: Slot, limit: int)
    requires DayOfTraffic(c, attempts, slot, limit)
    ensures Min(Attempts(attempts, slot), limit) <= Accepted(c, attempts, slot) <= 2 * limit
  {
    TrafficBounds(c, attempts, slot, limit);
  }

  /** All attempts on the slot count in one place. */
  predicate OneBackend(attempts: seq<Attempt>, slot: Slot, call: Option<RedisCall>) {
    forall i | 0 <= i < |attempts| && SlotOf(attempts[i]) == slot :: attempts[i].redis == call
  }

  /** How many attempts wasted a count of Redis within the limit: it counted them,
      but its reply or the expiry failed, so memory counted and judged them. */
  function Wasted(c: Counters, attempts: seq<Attempt>, slot: Slot): nat {
    if attempts == [] then 0
    else
      var init, last := attempts[..|attempts| - 1], attempts[|attempts| - 1];
      var before, after := Run(c, init), Run(c, attempts);
      Wasted(c, init, slot)
      + (if SlotOf(last) == slot && RedisCount(before, slot) < RedisCount(after, slot) <= last.limit
            && InMemory(before, slot) < InMemory(after, slot) then 1 else 0)
  }

  /** Over any day of traffic each backend accepts exactly what it counted,
      capped at the limit, less the counts wasted. */
  lemma {:induction false} AcceptanceLessWaste(c: Counters, attempts: seq<Attempt>, slot: Slot, limit: int)
    requires DayOfTraffic(c, attempts, slot, limit)
    ensures var c' := Run(c, attempts);
            && Lasting(c', slot)
            && Accepted(c, attempts, slot) + Wasted(c, attempts, slot)
               == Min(InMemory(c', slot), limit) + Min(RedisCount(c', slot), limit)
  {
    if attempts != [] {
      var init, last := attempts[..|attempts| - 1], attempts[|attempts| - 1];
      AcceptanceLessWaste(c, init, slot, limit);
      if SlotOf(last) == slot {
        OwnSlotStep(Run(c, init), last, slot);
      } else {
        OtherSlotsUntouched(Run(c, init), last, slot);
      }
    }
  }

  /** No count is lost on the slot: each attempt counts in memory or in Redis
      alone, and hears of it. */
  predicate NoLostCounts(attempts: seq<Attempt>, slot: Slot) {
    forall i | 0 <= i < |attempts| && SlotOf(attempts[i]) == slot ::
      CountsLocally(attempts[i]) || attempts[i].redis == Some(Works)
  }

  /** How many attempts on the slot count in memory. */
  function LocalAttempts(attempts: seq<Attempt>, slot: Slot): nat {
    if attempts == [] then 0
    else
      var last := attempts[|attempts| - 1];
      LocalAttempts(attempts[..|attempts| - 1], slot) + (if SlotOf(last) == slot && CountsLocally(last) then 1 else 0)
  }

  /** Without lost counts the two counters add up to the attempts, and each
      backend accepts exactly what it counted, capped at the limit. */
  lemma {:induction false} AcceptanceIsExact(c: Counters, attempts: seq<Attempt>, slot: Slot, limit: int)
    requires DayOfTraffic(c, attempts, slot, limit) && NoLostCounts(attempts, slot)
    ensures var c' := Run(c, attempts);
            && Lasting(c', slot)
            && InMemory(c', slot) == LocalAttempts(attempts, slot)
            && InMemory(c', slot) + RedisCount(c', slot) == Attempts(attempts, slot)
            && Accepted(c, attempts, slot) == Min(InMemory(c', slot), limit) + Min(RedisCount(c', slot), limit)
  {
    if attempts != [] {
      var init, last := attempts[..|attempts| - 1], attempts[|attempts| - 1];
      AcceptanceIsExact(c, init, slot, limit);
      if SlotOf(last) == slot {
        OwnSlotStep(Run(c, init), last, slot);
      } else {
        OtherSlotsUntouched(Run(c, init), last, slot);
      }
    }
  }

  /** Without lost counts a day exceeds the limit iff it has more attempts than
      that and some counted on each backend. */
  lemma LimitExceededExactly(c: Counters, attempts: seq<Attempt>, slot: Slot, limit: int)
    requires DayOfTraffic(c, attempts, slot, limit) && NoLostCounts(attempts, slot)
    ensures Accepted(c, attempts, slot) > limit <==>
            Attempts(attempts, slot) > limit && 0 < LocalAttempts(attempts, slot) < Attempts(attempts, slot)
  {
    AcceptanceIsExact(c, attempts, slot, limit);
  }

  lemma {:induction false} OneBackendIsLocalOrNot(attempts: seq<Attempt>, slot: Slot, call: Option<RedisCall>)
    requires OneBackend(attempts, slot, call)
    ensures LocalAttempts(attempts, slot) ==
            if call.None? || call == Some(IncrFails) then Attempts(attempts, slot) else 0
  {
    if attempts != [] { OneBackendIsLocalOrNot(attempts[..|attempts| - 1], slot, call); }
  }

  /** A single counting backend accepts exactly min(limit, attempts) in a day,
      whatever other keys do in between. */
  lemma OneBackendIsExact(c: Counters, attempts: seq<Attempt>, slot: Slot, limit: int, call: Option<RedisCall>)
    requires DayOfTraffic(c, attempts, slot, limit) && OneBackend(attempts, slot, call)
    requires call.None? || call == Some(Works) || call == Some(IncrFails)
    ensures Accepted(c, attempts, slot) == Min(limit, Attempts(attempts, slot))
  {
    OneBackendIsLocalOrNot(attempts, slot, call);
    AcceptanceIsExact(c, attempts, slot, limit);
  }

  // ---------------------------------------------------- the bound is reached

  function Repeat(a: Attempt, n: nat): seq<Attempt> { seq(n, _ => a) }

  lemma {:induction false} RunConcat(c: Counters, a: seq<Attempt>, b: seq<Attempt>, slot: Slot)
    ensures Run(c, a + b) == Run(Run(c, a), b)
    ensures Accepted(c, a + b, slot) == Accepted(c, a, slot) + Accepted(Run(c, a), b, slot)
  {
    if b == [] {
      assert a + b == a;
    } else {
      assert (a + b)[..|a + b| - 1] == a + b[..|b| - 1];
      RunConcat(c, a, b[..|b| - 1], slot);
    }
  }

  lemma {:induction false} RepeatAccepted(c: Counters, a: Attempt, n: nat)
    requires a.limit > 0 && n <= a.limit && Timely(a) && Lasting(c, SlotOf(a))
    requires if CountsLocally(a) then SlotOf(a) !in c.memory else a.redis == Some(Works) && SlotOf(a) !in c.redis
    ensures var c', slot := Run(c, Repeat(a, n)), SlotOf(a);
            && Accepted(c, Repeat(a, n), slot) == n && Lasting(c', slot)
            && (if CountsLocally(a) then InMemory(c', slot) == n && c'.redis == c.redis
                else RedisCount(c', slot) == n && c'.memory == c.memory)
  {
    if n > 0 {
      assert Repeat(a, n)[..n - 1] == Repeat(a, n - 1);
      RepeatAccepted(c, a, n - 1);
      OwnSlotStep(Run(c, Repeat(a, n - 1)), a, SlotOf(a));
    }
  }

  /** Twice the limit is really reached: a full quota through Redis, then a full
      quota through the fallback once Redis is away. */
  lemma TwiceTheLimitIsReached(key: string, limit: int, now: int) returns (attempts: seq<Attempt>)
    requires limit > 0
    ensures DayOfTraffic(Counters(map[], map[]), attempts, Slot(key, DayOf(now)), limit)
    ensures Accepted(Counters(map[], map[]), attempts, Slot(key, DayOf(now))) == 2 * limit
  {
    var empty := Counters(map[], map[]);
    var viaRedis, viaFallback := Attempt(key, limit, now, now, Some(Works)), Attempt(key, limit, now, now, Some(IncrFails));
    attempts := Repeat(viaRedis, limit) + Repeat(viaFallback, limit);
    RepeatAccepted(empty, viaRedis, limit);
    RepeatAccepted(Run(empty, Repeat(viaRedis, limit)), viaFallback, limit);
    assert forall i | 0 <= i < |attempts| :: attempts[i] == viaRedis || attempts[i] == viaFallback;
    RunConcat(empty, Repeat(viaRedis, limit), Repeat(viaFallback, limit), Slot(key, DayOf(now)));
  }

  // ------------------------------------------------------ days and exact values

  /** Days are the UTC days, of 86400 seconds each, from the epoch on. */
  lemma DayMeaning(now: int)
    ensures 86_400 * 1_000_000 * DayOf(now) <= now < 86_400 * 1_000_000 * (DayOf(now) + 1)
    ensures DayEnd(DayOf(now)) == 86_400 * 1_000_000 * (DayOf(now) + 1)
    ensures RetryAfter(now) * 1_000_000 <= DayEnd(DayOf(now)) - now < (RetryAfter(now) + 1) * 1_000_000
  {
  }

  /** A key without a positive limit is neither limited nor counted, and has no
      remaining quota to show. */
  lemma UnlimitedKeys(c: Counters, a: Attempt, readable: bool)
    requires a.limit <= 0
    ensures Consume(c, a) == (c, true)
    ensures Remaining(c, a.key, a.limit, a.now, a.executed, a.redis.Some?, readable) == None
  {
  }

  /** What remains is exactly how many more attempts the backend accepts: of any
      number made next, that many pass. */
  lemma {:induction false} RemainingIsExact(c: Counters, a: Attempt, n: nat)
    requires a.limit > 0 && Timely(a) && Lasting(c, SlotOf(a)) && (a.redis.None? || a.redis == Some(Works))
    ensures var left := Remaining(c, a.key, a.limit, a.now, a.executed, a.redis.Some?, true).value;
            var c' := Run(c, Repeat(a, n));
            && Accepted(c, Repeat(a, n), SlotOf(a)) == Min(n, left)
            && Lasting(c', SlotOf(a))
            && (if a.redis.None? then InMemory(c', SlotOf(a)) == InMemory(c, SlotOf(a)) + n
                else RedisCount(c', SlotOf(a)) == RedisCount(c, SlotOf(a)) + n)
  {
    LastingIsAlive(c, a);
    if n > 0 {
      assert Repeat(a, n)[..n - 1] == Repeat(a, n - 1);
      RemainingIsExact(c, a, n - 1);
      OwnSlotStep(Run(c, Repeat(a, n - 1)), a, SlotOf(a));
    }
  }

  lemma LastingIsAlive(c: Counters, a: Attempt)
    requires Timely(a) && Lasting(c, SlotOf(a))
    ensures InRedis(c, SlotOf(a), a.executed) == RedisCount(c, SlotOf(a))
  {
    DayMeaning(a.now);
  }

  /** A counter counts until its deadline and is gone from then on; one without a
      deadline stays. */
  lemma CountersExpire(c: Counters, slot: Slot, at: int)
    ensures slot in c.redis && c.redis[slot].deadline.Some? ==>
              InRedis(c, slot, at) == if at < c.redis[slot].deadline.value then c.redis[slot].count else 0
    ensures slot in c.redis && c.redis[slot].deadline.None? ==> InRedis(c, slot, at) == c.redis[slot].count
    ensures slot !in c.redis ==> InRedis(c, slot, at) == 0
  {
  }

  /** The first increment of a day sets the deadline, a minute past midnight to
      the second, unless its reply or the setting itself is lost; later ones
      leave it alone. */
  lemma DeadlineMeaning(c: Counters, a: Attempt)
    requires a.limit > 0 && a.redis.Some? && a.redis != Some(IncrFails)
    ensures var c', slot := Consume(c, a).0, SlotOf(a);
            && slot in c'.redis && c'.redis[slot].count == InRedis(c, slot, a.executed) + 1
            && c'.redis[slot].deadline ==
               (if InRedis(c, slot, a.executed) > 0 then c.redis[slot].deadline
                else if a.redis == Some(Works) then Some(a.executed + (RetryAfter(a.now) + 60) * 1_000_000)
                else None)
  {
  }
}
