/**
 The middleware in front of both stores. Redis is asked first; when it answers with an error, the
 in-memory store decides that one request. The two count apart, so both may admit their fill.
 */
module RateLimitMiddleware {
  import opened GoInt
  import opened Wrappers
  import opened Strings
  import opened RateLimit
  import opened RateLimitHistories

  /** What Redis makes of a request: it is counted and answered, or it errs, with or without having counted it. */
  datatype Reply = Answered | Erred(counted: bool)

  datatype Arrival = Arrival(request: Request, reply: Reply)

  class RateLimiter {
    const store: RateLimitStore
    const redis: RedisLimiter

    constructor (store: RateLimitStore, redis: RedisLimiter)
      ensures this.store == store && this.redis == redis
    {
      this.store := store;
      this.redis := redis;
    }

    /** A request of an unlimited bucket passes; otherwise exactly one store decides. */
    method Handle(ip: string, bucket: string, limit: Option<int>, reply: Reply, lag: Option<nat>, now: nat) returns (allowed: bool)
      modifies store, redis
      ensures limit.None? ==> allowed && store.counters == old(store.counters) && redis.entries == old(redis.entries)
      ensures limit.Some? ==>
                var key := RedisKey(bucket, ip, Minute(now));
                var c := CurrentCounter(old(store.counters), Key(bucket, ip), now);
                if reply.Answered? then
                  && redis.entries == Incremented(old(redis.entries), key, lag, now) && store.counters == old(store.counters)
                  && (limit.value > 0 ==> (allowed <==> LiveEntry(old(redis.entries), key, now).count < limit.value))
                  && (limit.value <= 0 ==> (allowed <==> LiveEntry(old(redis.entries), key, now).count < 60))
                else
                  && redis.entries == AfterError(old(redis.entries), key, reply.counted, now)
                  && store.counters == old(store.counters)[Key(bucket, ip) := c.(count := c.count + 1)]
                  && (limit.value > 0 ==> (allowed <==> c.count < limit.value))
                  && (limit.value <= 0 ==> (allowed <==> c.count < 60))
    {
      if limit.None? {
        return true;
      }
      if reply.Answered? {
        var ok, _ := redis.Allow(ip, bucket, limit, lag, now);
        return ok;
      }
      if reply.counted {
        var _, _ := redis.Allow(ip, bucket, limit, None, now);
      }
      var ok, _, _ := store.Allow(ip, bucket, limit, now);
      return ok;
    }
  }

  /** After an error the counter may have been increased, but no EXPIRE is sent. */
  function AfterError(entries: map<RedisKey, Entry>, key: RedisKey, counted: bool, now: nat): map<RedisKey, Entry> {
    if counted then Incremented(entries, key, None, now) else entries
  }

  // ---- histories

  /** Both stores on one clock. */
  datatype Both = Both(memory: Memory, redis: Redis)

  const EMPTY := Both(Memory(map[], [], 0), Redis(map[], [], 0))

  function Step(limitOf: string -> int, s: Both, a: Arrival): Both {
    var r, now := a.request, s.redis.clock + a.request.after;
    match a.reply
    case Answered => Both(s.memory.(clock := now), RedisStep(limitOf, s.redis, r))
    case Erred(counted) =>
      Both(MemoryStep(limitOf, s.memory, r),
           s.redis.(entries := AfterError(s.redis.entries, RedisKey(r.bucket, r.ip, Minute(now)), counted, now), clock := now))
  }

  function Run(limitOf: string -> int, arrivals: seq<Arrival>): Both {
    if arrivals == [] then EMPTY else Step(limitOf, Run(limitOf, arrivals[..|arrivals| - 1]), arrivals[|arrivals| - 1])
  }

  /** No minute has admitted more than the threshold, nor more than its counter says. */
  ghost predicate WithinCounts(s: Redis, minute: nat, bucket: string, ip: string, threshold: nat) {
    && (forall w :: InWindow(s.grants, bucket, ip, w) <= threshold)
    && (forall m: nat :: m >= minute ==> InWindow(s.grants, bucket, ip, m) <= CountOf(s.entries, RedisKey(bucket, ip, m)))
  }

  ghost predicate RedisFits(s: Redis, bucket: string, ip: string, threshold: nat) {
    WithinCounts(s, Minute(s.clock), bucket, ip, threshold) && EntriesOutlive(s.entries) && MinuteGrants(s.grants)
  }

  ghost predicate Inv(s: Both, bucket: string, ip: string, threshold: nat) {
    && s.memory.clock == s.redis.clock && MemoryInv(s.memory, bucket, ip, threshold) && AllOpened(s.memory, bucket, ip)
    && RedisFits(s.redis, bucket, ip, threshold)
  }

  lemma CountedKeepsFit(s: Redis, t: Redis, minute: nat, bucket: string, ip: string, threshold: nat, g: Grant)
    requires WithinCounts(s, minute, bucket, ip, threshold) && g.window == minute
    requires var key := RedisKey(g.bucket, g.ip, minute);
             && CountOf(t.entries, key) == CountOf(s.entries, key) + 1
             && (forall k :: k != key ==> CountOf(t.entries, k) == CountOf(s.entries, k))
    requires t.grants == s.grants || t.grants == s.grants + [g]
    requires Mine(g, bucket, ip) && t.grants != s.grants ==> CountOf(s.entries, RedisKey(bucket, ip, minute)) < threshold
    ensures WithinCounts(t, minute, bucket, ip, threshold)
  {
    forall w ensures InWindow(s.grants + [g], bucket, ip, w)
                  == InWindow(s.grants, bucket, ip, w) + if Mine(g, bucket, ip) && w == minute then 1 else 0
    {
      InWindowGrows(s.grants, g, bucket, ip, w);
    }
  }

  lemma AnswerKeepsFit(limitOf: string -> int, s: Redis, r: Request, bucket: string, ip: string)
    requires RedisFits(s, bucket, ip, EffectiveLimit(limitOf(bucket)))
    ensures RedisFits(RedisStep(limitOf, s, r), bucket, ip, EffectiveLimit(limitOf(bucket)))
  {
    var now, minute := s.clock + r.after, Minute(s.clock + r.after);
    MinuteMonotone(s.clock, now);
    EntryIsLive(s.entries, RedisKey(r.bucket, r.ip, minute), now);
    IncrementKeepsEntries(s.entries, RedisKey(r.bucket, r.ip, minute), r.lag, now);
    AnswerAt(s, RedisStep(limitOf, s, r), Grant(r.bucket, r.ip, now, minute), now, bucket, ip, EffectiveLimit(limitOf(bucket)));
  }

  lemma AnswerAt(s: Redis, t: Redis, g: Grant, now: nat, bucket: string, ip: string, threshold: nat)
    requires t.clock == g.at == now && g.window == Minute(now)
    requires WithinCounts(s, g.window, bucket, ip, threshold) && MinuteGrants(s.grants) && EntriesOutlive(t.entries)
    requires var key := RedisKey(g.bucket, g.ip, g.window);
             && CountOf(t.entries, key) == CountOf(s.entries, key) + 1
             && (forall k :: k != key ==> CountOf(t.entries, k) == CountOf(s.entries, k))
    requires t.grants == s.grants || t.grants == s.grants + [g]
    requires Mine(g, bucket, ip) && t.grants != s.grants ==> CountOf(s.entries, RedisKey(bucket, ip, g.window)) < threshold
    ensures RedisFits(t, bucket, ip, threshold)
  {
    MinuteBounds(now);
    assert MinuteGrant(g);
    CountedKeepsFit(s, t, g.window, bucket, ip, threshold, g);
  }

  lemma ErrorKeepsFit(s: Redis, t: Redis, r: Request, counted: bool, bucket: string, ip: string, threshold: nat)
    requires RedisFits(s, bucket, ip, threshold)
    requires var now := s.clock + r.after;
             t == s.(entries := AfterError(s.entries, RedisKey(r.bucket, r.ip, Minute(now)), counted, now), clock := now)
    ensures RedisFits(t, bucket, ip, threshold)
  {
    var now, minute := s.clock + r.after, Minute(s.clock + r.after);
    MinuteMonotone(s.clock, now);
    if counted {
      IncrementKeepsEntries(s.entries, RedisKey(r.bucket, r.ip, minute), None, now);
      CountedKeepsFit(s, t, minute, bucket, ip, threshold, Grant(r.bucket, r.ip, now, minute));
    }
  }

  lemma WaitingKeepsMemory(s: Memory, later: Time, bucket: string, ip: string, threshold: nat)
    requires MemoryInv(s, bucket, ip, threshold) && s.clock <= later
    ensures MemoryInv(s.(clock := later), bucket, ip, threshold)
  {
  }

  lemma StepKeepsInv(limitOf: string -> int, s: Both, a: Arrival, bucket: string, ip: string)
    requires Inv(s, bucket, ip, EffectiveLimit(limitOf(bucket))) && FreeOf(a.request.bucket, ':') && FreeOf(bucket, ':')
    ensures Inv(Step(limitOf, s, a), bucket, ip, EffectiveLimit(limitOf(bucket)))
  {
    var threshold, t := EffectiveLimit(limitOf(bucket)), Step(limitOf, s, a);
    match a.reply
    case Answered =>
      WaitingKeepsMemory(s.memory, t.redis.clock, bucket, ip, threshold);
      AnswerKeepsFit(limitOf, s.redis, a.request, bucket, ip);
    case Erred(counted) =>
      MemoryStepKeepsInv(limitOf, s.memory, a.request, bucket, ip);
      MemoryStepKeepsOpened(limitOf, s.memory, a.request, bucket, ip);
      ErrorKeepsFit(s.redis, t.redis, a.request, counted, bucket, ip, threshold);
  }

  lemma {:induction false} RunKeepsInv(limitOf: string -> int, arrivals: seq<Arrival>, bucket: string, ip: string)
    requires FreeOf(bucket, ':') && forall i :: 0 <= i < |arrivals| ==> FreeOf(arrivals[i].request.bucket, ':')
    ensures Inv(Run(limitOf, arrivals), bucket, ip, EffectiveLimit(limitOf(bucket)))
  {
    if arrivals != [] {
      RunKeepsInv(limitOf, arrivals[..|arrivals| - 1], bucket, ip);
      StepKeepsInv(limitOf, Run(limitOf, arrivals[..|arrivals| - 1]), arrivals[|arrivals| - 1], bucket, ip);
    }
  }

  /**
   For every history of requests and every pattern of Redis errors, a bucket and IP is admitted less
   than four times its limit in any 60 seconds: at most twice by Redis, and once less in memory. A
   limit that is not positive stands for 60.
   */
  lemma FourTimesTheThreshold(limitOf: string -> int, arrivals: seq<Arrival>, bucket: string, ip: string, from: Time)
    requires FreeOf(bucket, ':') && forall i :: 0 <= i < |arrivals| ==> FreeOf(arrivals[i].request.bucket, ':')
    ensures var limit := if limitOf(bucket) > 0 then limitOf(bucket) else 60;
            InSpanOfBoth(Run(limitOf, arrivals), bucket, ip, from) <= 4 * limit - 1
  {
    var s, threshold := Run(limitOf, arrivals), EffectiveLimit(limitOf(bucket));
    RunKeepsInv(limitOf, arrivals, bucket, ip);
    MemorySpanBound(s.memory, bucket, ip, threshold, from);
    SpanBound(s.redis.grants, bucket, ip, threshold, from);
  }

  function InSpanOfBoth(s: Both, bucket: string, ip: string, from: Time): nat {
    InSpan(s.memory.grants, bucket, ip, from, from + WINDOW) + InSpan(s.redis.grants, bucket, ip, from, from + WINDOW)
  }

  // ---- the bound is reached

  /** So many requests at one time, the first after a pause, all with the same reply. */
  function Burst(bucket: string, ip: string, pause: nat, reply: Reply, k: nat): seq<Arrival> {
    if k == 0 then [] else Burst(bucket, ip, pause, reply, k - 1) + [BurstAt(bucket, ip, pause, reply, k)]
  }

  function BurstAt(bucket: string, ip: string, pause: nat, reply: Reply, k: nat): Arrival {
    Arrival(Request(bucket, ip, if k == 1 then pause else 0, Some(0)), reply)
  }

  lemma InSpanGrows(grants: seq<Grant>, g: Grant, bucket: string, ip: string, from: Time)
    ensures InSpan(grants + [g], bucket, ip, from, from + WINDOW)
         == InSpan(grants, bucket, ip, from, from + WINDOW) + if InSpanOf(g, bucket, ip, from) then 1 else 0
  {
    assert (grants + [g])[..|grants|] == grants;
  }

  /** The run of one history after another, for any step function. */
  function Fold<S>(step: (S, Arrival) -> S, s: S, arrivals: seq<Arrival>): S {
    if arrivals == [] then s else step(Fold(step, s, arrivals[..|arrivals| - 1]), arrivals[|arrivals| - 1])
  }

  lemma {:induction false} FoldSplits<S>(step: (S, Arrival) -> S, s: S, first: seq<Arrival>, second: seq<Arrival>)
    ensures Fold(step, s, first + second) == Fold(step, Fold(step, s, first), second)
  {
    if second == [] {
      assert first + second == first;
    } else {
      FoldSplits(step, s, first, second[..|second| - 1]);
      assert (first + second)[..|first + second| - 1] == first + second[..|second| - 1];
    }
  }

  function Stepper(limitOf: string -> int): (Both, Arrival) -> Both {
    (s, a) => Step(limitOf, s, a)
  }

  lemma {:induction false} RunIsFold(limitOf: string -> int, arrivals: seq<Arrival>)
    ensures Run(limitOf, arrivals) == Fold(Stepper(limitOf), EMPTY, arrivals)
  {
    if arrivals != [] {
      RunIsFold(limitOf, arrivals[..|arrivals| - 1]);
    }
  }

  /** The state after a burst. */
  function Bursted(limitOf: string -> int, s: Both, bucket: string, ip: string, pause: nat, reply: Reply, k: nat): Both {
    Fold(Stepper(limitOf), s, Burst(bucket, ip, pause, reply, k))
  }

  lemma BurstedGrows(limitOf: string -> int, s: Both, bucket: string, ip: string, pause: nat, reply: Reply, k: nat)
    ensures Bursted(limitOf, s, bucket, ip, pause, reply, 0) == s
    ensures var t := Bursted(limitOf, s, bucket, ip, pause, reply, k);
            k > 0 ==> t == Step(limitOf, Bursted(limitOf, s, bucket, ip, pause, reply, k - 1), BurstAt(bucket, ip, pause, reply, k))
  {
    if k > 0 {
      var burst := Burst(bucket, ip, pause, reply, k);
      assert burst[..|burst| - 1] == Burst(bucket, ip, pause, reply, k - 1);
    }
  }

  /** From s to t, at this time, Redis has admitted k requests in the span, and nothing else has changed. */
  ghost predicate RedisAdmitted(s: Both, t: Both, key: RedisKey, now: nat, k: nat, from: Time) {
    && t.redis.clock == now && t.memory == s.memory.(clock := now)
    && InSpan(t.redis.grants, key.bucket, key.ip, from, from + WINDOW) == InSpan(s.redis.grants, key.bucket, key.ip, from, from + WINDOW) + k
    && LiveEntry(t.redis.entries, key, now).count == LiveEntry(s.redis.entries, key, now).count + k
    && forall other :: other != key ==> (other in t.redis.entries <==> other in s.redis.entries)
  }

  lemma RedisAdmitsOne(limitOf: string -> int, s: Both, key: RedisKey, pause: nat, from: Time)
    requires s.memory.clock == s.redis.clock && from <= s.redis.clock + pause <= from + WINDOW && key.minute == Minute(s.redis.clock + pause)
    requires LiveEntry(s.redis.entries, key, s.redis.clock + pause).count < EffectiveLimit(limitOf(key.bucket))
    ensures RedisAdmitted(s, Step(limitOf, s, Arrival(Request(key.bucket, key.ip, pause, Some(0)), Answered)), key, s.redis.clock + pause, 1, from)
  {
    var now := s.redis.clock + pause;
    InSpanGrows(s.redis.grants, Grant(key.bucket, key.ip, now, key.minute), key.bucket, key.ip, from);
  }

  lemma AdmissionsAddUp(s: Both, t: Both, u: Both, key: RedisKey, now: nat, k: nat, from: Time)
    requires RedisAdmitted(s, t, key, now, k, from) && RedisAdmitted(t, u, key, now, 1, from)
    ensures RedisAdmitted(s, u, key, now, k + 1, from)
  {
  }

  lemma RedisAdmitsNext(limitOf: string -> int, s: Both, mid: Both, u: Both, key: RedisKey, now: nat, k: nat, from: Time)
    requires RedisAdmitted(s, mid, key, now, k, from) && from <= now <= from + WINDOW && key.minute == Minute(now)
    requires LiveEntry(s.redis.entries, key, now).count + k < EffectiveLimit(limitOf(key.bucket))
    requires u == Step(limitOf, mid, Arrival(Request(key.bucket, key.ip, 0, Some(0)), Answered))
    ensures RedisAdmitted(s, u, key, now, k + 1, from)
  {
    RedisAdmitsOne(limitOf, mid, key, 0, from);
    AdmissionsAddUp(s, mid, u, key, now, k, from);
  }

  lemma {:induction false} RedisAdmitsBurst(limitOf: string -> int, s: Both, key: RedisKey, pause: nat, k: nat, from: Time, now: nat)
    requires s.memory.clock == s.redis.clock && now == s.redis.clock + pause && from <= now <= from + WINDOW && k >= 1 && key.minute == Minute(now)
    requires LiveEntry(s.redis.entries, key, now).count + k <= EffectiveLimit(limitOf(key.bucket))
    ensures RedisAdmitted(s, Bursted(limitOf, s, key.bucket, key.ip, pause, Answered, k), key, now, k, from)
  {
    var t := Bursted(limitOf, s, key.bucket, key.ip, pause, Answered, k);
    BurstedGrows(limitOf, s, key.bucket, key.ip, pause, Answered, k);
    if k == 1 {
      RedisAdmitsOne(limitOf, s, key, pause, from);
    } else {
      RedisAdmitsBurst(limitOf, s, key, pause, k - 1, from, now);
      RedisAdmitsNext(limitOf, s, Bursted(limitOf, s, key.bucket, key.ip, pause, Answered, k - 1), t, key, now, k - 1, from);
    }
  }

  /** From s to t memory has admitted k requests in the span, and nothing else has changed. */
  ghost predicate MemoryAdmitted(s: Both, t: Both, bucket: string, ip: string, key: string, k: nat, from: Time) {
    var c := CurrentCounter(s.memory.counters, key, s.memory.clock);
    && t.redis == s.redis && t.memory.clock == s.memory.clock
    && InSpan(t.memory.grants, bucket, ip, from, from + WINDOW) == InSpan(s.memory.grants, bucket, ip, from, from + WINDOW) + k
    && CurrentCounter(t.memory.counters, key, s.memory.clock) == c.(count := c.count + k)
  }

  lemma MemoryAdmitsOne(limitOf: string -> int, s: Both, bucket: string, ip: string, key: string, from: Time)
    requires key == Key(bucket, ip) && s.memory.clock == s.redis.clock && from <= s.memory.clock <= from + WINDOW
    requires CurrentCounter(s.memory.counters, key, s.memory.clock).count < EffectiveLimit(limitOf(bucket))
    requires CurrentCounter(s.memory.counters, key, s.memory.clock).reset >= s.memory.clock
    ensures MemoryAdmitted(s, Step(limitOf, s, Arrival(Request(bucket, ip, 0, Some(0)), Erred(false))), bucket, ip, key, 1, from)
  {
    ErredStep(limitOf, s, Request(bucket, ip, 0, Some(0)));
    MemoryStepAdmits(limitOf, s, MemoryStep(limitOf, s.memory, Request(bucket, ip, 0, Some(0))), bucket, ip, key, from);
  }

  lemma ErredStep(limitOf: string -> int, s: Both, r: Request)
    requires r.after == 0
    ensures Step(limitOf, s, Arrival(r, Erred(false))) == s.(memory := MemoryStep(limitOf, s.memory, r))
  {
  }

  lemma MemoryStepAdmits(limitOf: string -> int, s: Both, t: Memory, bucket: string, ip: string, key: string, from: Time)
    requires key == Key(bucket, ip) && from <= s.memory.clock <= from + WINDOW && t == MemoryStep(limitOf, s.memory, Request(bucket, ip, 0, Some(0)))
    requires CurrentCounter(s.memory.counters, key, s.memory.clock).count < EffectiveLimit(limitOf(bucket))
    requires CurrentCounter(s.memory.counters, key, s.memory.clock).reset >= s.memory.clock
    ensures MemoryAdmitted(s, s.(memory := t), bucket, ip, key, 1, from)
  {
    var c := CurrentCounter(s.memory.counters, key, s.memory.clock);
    InSpanGrows(s.memory.grants, Grant(bucket, ip, s.memory.clock, c.reset), bucket, ip, from);
  }

  /** Redis errs without counting: the requests go to memory. */
  lemma {:induction false} MemoryAdmitsBurst(limitOf: string -> int, s: Both, bucket: string, ip: string, key: string, k: nat, from: Time)
    requires key == Key(bucket, ip) && s.memory.clock == s.redis.clock && from <= s.memory.clock <= from + WINDOW
    requires CurrentCounter(s.memory.counters, key, s.memory.clock).count + k <= EffectiveLimit(limitOf(bucket))
    ensures MemoryAdmitted(s, Bursted(limitOf, s, bucket, ip, 0, Erred(false), k), bucket, ip, key, k, from)
  {
    BurstedGrows(limitOf, s, bucket, ip, 0, Erred(false), k);
    if k > 0 {
      MemoryAdmitsBurst(limitOf, s, bucket, ip, key, k - 1, from);
      MemoryAdmitsOne(limitOf, Bursted(limitOf, s, bucket, ip, 0, Erred(false), k - 1), bucket, ip, key, from);
    }
  }

  /** The last instant of the first minute. */
  const LAST: nat := 59_999_999_999

  /**
   The worst history for a threshold: one request in memory opens a window; a minute later, just
   before both windows turn, Redis and memory admit all they can, and just after they do so again.
   */
  function WorstHistory(bucket: string, ip: string, threshold: nat): seq<Arrival>
    requires threshold >= 1
  {
    Burst(bucket, ip, 0, Erred(false), 1) + Burst(bucket, ip, LAST, Answered, threshold) + Burst(bucket, ip, 0, Erred(false), threshold - 1)
    + Burst(bucket, ip, 2, Answered, threshold) + Burst(bucket, ip, 0, Erred(false), threshold)
  }

  /** The bound is reached, for every limit. */
  lemma BoundIsReached(limitOf: string -> int, bucket: string, ip: string)
    ensures var threshold := if limitOf(bucket) > 0 then limitOf(bucket) else 60;
            InSpanOfBoth(Run(limitOf, WorstHistory(bucket, ip, threshold)), bucket, ip, LAST) == 4 * threshold - 1
  {
    var threshold := EffectiveLimit(limitOf(bucket));
    WorstRun(limitOf, bucket, ip, threshold);
    OpeningRequest(limitOf, bucket, ip);
    FourBursts(limitOf, Bursted(limitOf, EMPTY, bucket, ip, 0, Erred(false), 1), bucket, ip, Key(bucket, ip), threshold);
  }

  /** The state after the two bursts before the windows turn. */
  function AfterTwo(limitOf: string -> int, s: Both, bucket: string, ip: string, threshold: nat): Both
    requires threshold >= 1
  {
    var first := Bursted(limitOf, s, bucket, ip, LAST, Answered, threshold);
    Bursted(limitOf, first, bucket, ip, 0, Erred(false), threshold - 1)
  }

  /** The state after the four bursts that follow the opening request. */
  function AfterFour(limitOf: string -> int, s: Both, bucket: string, ip: string, threshold: nat): Both
    requires threshold >= 1
  {
    var third := Bursted(limitOf, AfterTwo(limitOf, s, bucket, ip, threshold), bucket, ip, 2, Answered, threshold);
    Bursted(limitOf, third, bucket, ip, 0, Erred(false), threshold)
  }

  lemma WorstRun(limitOf: string -> int, bucket: string, ip: string, threshold: nat)
    requires threshold >= 1
    ensures Run(limitOf, WorstHistory(bucket, ip, threshold))
         == AfterFour(limitOf, Bursted(limitOf, EMPTY, bucket, ip, 0, Erred(false), 1), bucket, ip, threshold)
  {
    RunIsFold(limitOf, WorstHistory(bucket, ip, threshold));
    FoldFive(Stepper(limitOf), EMPTY, Burst(bucket, ip, 0, Erred(false), 1), Burst(bucket, ip, LAST, Answered, threshold),
             Burst(bucket, ip, 0, Erred(false), threshold - 1), Burst(bucket, ip, 2, Answered, threshold), Burst(bucket, ip, 0, Erred(false), threshold));
  }

  lemma FoldFive<S>(step: (S, Arrival) -> S, s: S, a: seq<Arrival>, b: seq<Arrival>, c: seq<Arrival>, d: seq<Arrival>, e: seq<Arrival>)
    ensures Fold(step, s, a + b + c + d + e) == Fold(step, Fold(step, Fold(step, Fold(step, Fold(step, s, a), b), c), d), e)
  {
    FoldSplits(step, s, a, b);
    FoldSplits(step, s, a + b, c);
    FoldSplits(step, s, a + b + c, d);
    FoldSplits(step, s, a + b + c + d, e);
  }

  /** Before and after the turn of both windows, each store admits all it can. */
  lemma FourBursts(limitOf: string -> int, s: Both, bucket: string, ip: string, key: string, threshold: nat)
    requires key == Key(bucket, ip) && threshold == EffectiveLimit(limitOf(bucket)) && s.redis == Redis(map[], [], 0)
    requires s.memory.clock == 0 && s.memory.counters == map[key := Counter(1, WINDOW)] && InSpan(s.memory.grants, bucket, ip, LAST, LAST + WINDOW) == 0
    ensures InSpanOfBoth(AfterFour(limitOf, s, bucket, ip, threshold), bucket, ip, LAST) == 4 * threshold - 1
  {
    BeforeTheTurn(limitOf, s, bucket, ip, key, threshold);
    AfterTheTurn(limitOf, AfterTwo(limitOf, s, bucket, ip, threshold), bucket, ip, key, threshold);
  }

  /** Just before the turn: Redis has not been used, memory by one request. */
  lemma BeforeTheTurn(limitOf: string -> int, s: Both, bucket: string, ip: string, key: string, threshold: nat)
    requires key == Key(bucket, ip) && threshold == EffectiveLimit(limitOf(bucket)) && s.redis == Redis(map[], [], 0)
    requires s.memory.clock == 0 && s.memory.counters == map[key := Counter(1, WINDOW)] && InSpan(s.memory.grants, bucket, ip, LAST, LAST + WINDOW) == 0
    ensures var t := AfterTwo(limitOf, s, bucket, ip, threshold);
            && t.redis.clock == t.memory.clock == LAST && InSpanOfBoth(t, bucket, ip, LAST) == 2 * threshold - 1
            && RedisKey(bucket, ip, 1) !in t.redis.entries && CurrentCounter(t.memory.counters, key, LAST) == Counter(threshold, WINDOW)
  {
    RedisAdmitsBurst(limitOf, s, RedisKey(bucket, ip, 0), LAST, threshold, LAST, LAST);
    MemoryAdmitsBurst(limitOf, Bursted(limitOf, s, bucket, ip, LAST, Answered, threshold), bucket, ip, key, threshold - 1, LAST);
  }

  /** Just after it both have their whole threshold again. */
  lemma AfterTheTurn(limitOf: string -> int, s: Both, bucket: string, ip: string, key: string, threshold: nat)
    requires key == Key(bucket, ip) && threshold == EffectiveLimit(limitOf(bucket)) && s.redis.clock == s.memory.clock == LAST
    requires RedisKey(bucket, ip, 1) !in s.redis.entries && CurrentCounter(s.memory.counters, key, LAST) == Counter(threshold, WINDOW)
    ensures var third := Bursted(limitOf, s, bucket, ip, 2, Answered, threshold);
            InSpanOfBoth(Bursted(limitOf, third, bucket, ip, 0, Erred(false), threshold), bucket, ip, LAST)
            == InSpanOfBoth(s, bucket, ip, LAST) + 2 * threshold
  {
    RedisAdmitsBurst(limitOf, s, RedisKey(bucket, ip, 1), 2, threshold, LAST, LAST + 2);
    WindowHasTurned(s.memory.counters, key, threshold);
    MemoryAdmitsBurst(limitOf, Bursted(limitOf, s, bucket, ip, 2, Answered, threshold), bucket, ip, key, threshold, LAST);
  }

  lemma WindowHasTurned(counters: map<string, Counter>, key: string, threshold: nat)
    requires threshold >= 1 && CurrentCounter(counters, key, LAST) == Counter(threshold, WINDOW)
    ensures CurrentCounter(counters, key, LAST + 2).count == 0
  {
  }

  lemma OpeningRequest(limitOf: string -> int, bucket: string, ip: string)
    ensures var s := Bursted(limitOf, EMPTY, bucket, ip, 0, Erred(false), 1);
            && s.redis == Redis(map[], [], 0) && s.memory.clock == 0
            && s.memory.counters == map[Key(bucket, ip) := Counter(1, WINDOW)]
            && InSpan(s.memory.grants, bucket, ip, LAST, LAST + WINDOW) == 0
  {
    BurstedGrows(limitOf, EMPTY, bucket, ip, 0, Erred(false), 1);
    BurstedGrows(limitOf, EMPTY, bucket, ip, 0, Erred(false), 0);
    InSpanGrows([], Grant(bucket, ip, 0, WINDOW), bucket, ip, LAST);
  }
}
