/**
 The request limiter: fixed windows kept in memory, and fixed minute windows kept in Redis.
 Both admit the first requests of a window up to the threshold and refuse the rest.
 */
module RateLimit {
  import opened GoInt
  import opened Wrappers
  import opened Strings

  const WINDOW: Time := 60_000_000_000

  /** A configured limit of zero or less means 60. */
  function EffectiveLimit(limit: int): (threshold: int)
    ensures threshold >= 1
    ensures limit > 0 ==> threshold == limit
    ensures limit <= 0 ==> threshold == 60
  {
    if limit <= 0 then 60 else limit
  }

  function ClassifyBucket(path: string, httpMethod: string): string {
    if HasPrefix(path, "/v1/subscriptions/webhook") then "webhook"
    else if HasPrefix(path, "/v1/payment-methods") then "payment-methods"
    else if HasPrefix(path, "/v1/subscriptions") && ToUpper(httpMethod) == "POST" then "subscriptions"
    else "default"
  }

  /** Which requests share a bucket: webhooks and payment methods by path alone, the other subscription paths only when posted to. */
  lemma BucketsByRoute(rest: string, httpMethod: string)
    ensures ClassifyBucket("/v1/subscriptions/webhook" + rest, httpMethod) == "webhook"
    ensures ClassifyBucket("/v1/payment-methods" + rest, httpMethod) == "payment-methods"
    ensures !HasPrefix(rest, "/webhook") ==>
              ClassifyBucket("/v1/subscriptions" + rest, httpMethod) == if ToUpper(httpMethod) == "POST" then "subscriptions" else "default"
  {
    var webhooks, methods, subscriptions := "/v1/subscriptions/webhook", "/v1/payment-methods", "/v1/subscriptions";
    assert webhooks == subscriptions + "/webhook" && subscriptions[4] == 's' && methods[4] == 'p';
    assert (methods + rest)[4] == 'p' && (subscriptions + rest)[4] == 's';
    if HasPrefix(subscriptions + rest, webhooks) {
      assert rest[..8] == (subscriptions + rest)[|subscriptions|..][..8] == "/webhook";
    }
  }

  function Key(bucket: string, ip: string): string {
    bucket + ":" + ip
  }

  /** An IP address may contain colons, but no bucket does: two clients never share a counter. */
  lemma KeysAreInjective(path1: string, method1: string, ip1: string, path2: string, method2: string, ip2: string)
    requires Key(ClassifyBucket(path1, method1), ip1) == Key(ClassifyBucket(path2, method2), ip2)
    ensures ClassifyBucket(path1, method1) == ClassifyBucket(path2, method2) && ip1 == ip2
  {
    FirstFieldIsUnique(ClassifyBucket(path1, method1), ip1, ClassifyBucket(path2, method2), ip2, ':');
  }

  /** One in-memory counter. */
  datatype Counter = Counter(count: nat, reset: Time)

  /** The counter a request at `now` counts in: a new window starts once the old one has run out. */
  function CurrentCounter(counters: map<string, Counter>, key: string, now: Time): Counter {
    if key !in counters || now > counters[key].reset then Counter(0, now + WINDOW) else counters[key]
  }

  class RateLimitStore {
    var counters: map<string, Counter>

    constructor ()
      ensures counters == map[]
    {
      counters := map[];
    }

    method Allow(ip: string, bucket: string, limit: Option<int>, now: Time) returns (allowed: bool, remaining: int, reset: Time)
      modifies this
      ensures limit.None? ==> allowed && counters == old(counters) && remaining == 0 && reset == 0
      ensures limit.Some? ==>
                var c := CurrentCounter(old(counters), Key(bucket, ip), now);
                && counters == old(counters)[Key(bucket, ip) := c.(count := c.count + 1)]
                && (limit.value > 0 ==> (allowed <==> c.count < limit.value)
                                        && remaining == if allowed then limit.value - c.count - 1 else 0)
                && (limit.value <= 0 ==> (allowed <==> c.count < 60) && remaining == if allowed then 59 - c.count else 0)
                && reset == c.reset - now && 0 <= reset
    {
      if limit.None? {
        return true, 0, 0;
      }
      var threshold := EffectiveLimit(limit.value);
      var key := Key(bucket, ip);
      var counter := if key in counters && now <= counters[key].reset then counters[key] else Counter(0, now + WINDOW);
      counter := counter.(count := counter.count + 1);
      counters := counters[key := counter];
      allowed := counter.count <= threshold;
      remaining := threshold - counter.count;
      if remaining < 0 {
        remaining := 0;
      }
      reset := counter.reset - now;
      if reset < 0 {
        reset := 0;
      }
    }
  }

  /** A Redis counter, with the time it expires once its TTL is set. */
  datatype Entry = Entry(count: nat, expiresAt: Option<Time>)

  datatype RedisKey = RedisKey(bucket: string, ip: string, minute: nat)

  /** The text under which Redis keeps the counter. */
  function RedisText(key: RedisKey): string {
    "rl:" + key.bucket + ":" + key.ip + ":" + Decimal(key.minute)
  }

  /** Two counters share a text exactly when they are of one bucket, IP and minute; only the IP may contain colons. */
  lemma RedisTextsAreInjective(key: RedisKey, other: RedisKey)
    requires FreeOf(key.bucket, ':') && FreeOf(other.bucket, ':')
    ensures RedisText(key) == RedisText(other) <==> key == other
  {
    if RedisText(key) == RedisText(other) {
      TextFields("rl:", key.bucket, key.ip, Decimal(key.minute), other.bucket, other.ip, Decimal(other.minute));
      DecimalValue(key.minute);
      DecimalValue(other.minute);
    }
  }

  lemma TextFields(prefix: string, bucket: string, ip: string, minute: string, bucket': string, ip': string, minute': string)
    requires FreeOf(bucket, ':') && FreeOf(bucket', ':') && AllDigits(minute) && AllDigits(minute')
    requires prefix + bucket + ":" + ip + ":" + minute == prefix + bucket' + ":" + ip' + ":" + minute'
    ensures bucket == bucket' && ip == ip' && minute == minute'
  {
    LastFieldIsUnique(prefix + bucket + ":" + ip, minute, prefix + bucket' + ":" + ip', minute', ':');
    assert bucket + [':'] + ip == (prefix + bucket + ":" + ip)[|prefix|..];
    assert bucket' + [':'] + ip' == (prefix + bucket' + ":" + ip')[|prefix|..];
    FirstFieldIsUnique(bucket, ip, bucket', ip', ':');
  }

  /** The buckets of the middleware contain no colon. */
  lemma BucketsAreColonFree(path: string, httpMethod: string)
    ensures FreeOf(ClassifyBucket(path, httpMethod), ':')
  {
  }

  /** The minute of a Unix time: whole seconds, divided by sixty. */
  function Minute(now: nat): nat {
    (now / 1_000_000_000) / 60
  }

  function LiveEntry(entries: map<RedisKey, Entry>, key: RedisKey, now: Time): Entry {
    if key in entries && !(entries[key].expiresAt.Some? && entries[key].expiresAt.value <= now)
    then entries[key] else Entry(0, None)
  }

  class RedisLimiter {
    var entries: map<RedisKey, Entry>

    constructor ()
      ensures entries == map[]
    {
      entries := map[];
    }

    /** INCR, then EXPIRE for the first one; `lag` is how late EXPIRE lands, or None when it is lost. */
    method Allow(ip: string, bucket: string, limit: Option<int>, lag: Option<nat>, now: nat) returns (allowed: bool, remaining: int)
      modifies this
      ensures limit.None? ==> allowed && entries == old(entries) && remaining == 0
      ensures limit.Some? ==>
                var count := LiveEntry(old(entries), RedisKey(bucket, ip, Minute(now)), now).count;
                && entries == Incremented(old(entries), RedisKey(bucket, ip, Minute(now)), lag, now)
                && (limit.value > 0 ==> (allowed <==> count < limit.value) && remaining == if allowed then limit.value - count - 1 else 0)
                && (limit.value <= 0 ==> (allowed <==> count < 60) && remaining == if allowed then 59 - count else 0)
    {
      if limit.None? {
        return true, 0;
      }
      var threshold := EffectiveLimit(limit.value);
      var key := RedisKey(bucket, ip, Minute(now));
      var entry := LiveEntry(entries, key, now);
      entry := entry.(count := entry.count + 1);
      if entry.count == 1 && lag.Some? {
        entry := entry.(expiresAt := Some(now + lag.value + WINDOW));
      }
      entries := entries[key := entry];
      allowed := entry.count <= threshold;
      remaining := threshold - entry.count;
      if remaining < 0 {
        remaining := 0;
      }
    }
  }

  function Incremented(entries: map<RedisKey, Entry>, key: RedisKey, lag: Option<nat>, now: nat): map<RedisKey, Entry> {
    var entry := LiveEntry(entries, key, now);
    var expiresAt := if entry.count == 0 && lag.Some? then Some(now + lag.value + WINDOW) else entry.expiresAt;
    entries[key := Entry(entry.count + 1, expiresAt)]
  }
}
