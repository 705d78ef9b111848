/**
 The retry schedule of stored webhooks: the configuration after defaulting and the
 exponential backoff, computed in int64 arithmetic as the service computes it.
 */
module WebhookRetry {
  import opened GoInt
  import opened Wrappers

  datatype RetryConfig = RetryConfig(maxAttempts: int, initialBackoff: Time, maxBackoff: Time, batchSize: int)

  predicate InRange(cfg: RetryConfig) {
    && IsInt64(cfg.maxAttempts) && IsInt64(cfg.initialBackoff)
    && IsInt64(cfg.maxBackoff) && IsInt64(cfg.batchSize)
  }

  function DefaultWebhookRetryConfig(): RetryConfig {
    RetryConfig(5, MINUTE, HOUR, 100)
  }

  function GetWebhookRetryConfig(webhooks: Option<RetryConfig>): RetryConfig {
    var defaults := DefaultWebhookRetryConfig();
    match webhooks
    case None => defaults
    case Some(given) =>
      var retry := if given.maxAttempts <= 0 then given.(maxAttempts := defaults.maxAttempts) else given;
      var retry := if retry.initialBackoff <= 0 then retry.(initialBackoff := defaults.initialBackoff) else retry;
      var retry := if retry.maxBackoff <= 0 then retry.(maxBackoff := defaults.maxBackoff) else retry;
      var retry := if retry.maxBackoff < retry.initialBackoff then retry.(maxBackoff := retry.initialBackoff) else retry;
      if retry.batchSize <= 0 then retry.(batchSize := defaults.batchSize) else retry
  }

  /** The configuration check that start-up performs. */
  predicate Validates(cfg: RetryConfig) {
    cfg.maxAttempts >= 1 && 0 < cfg.initialBackoff <= cfg.maxBackoff && cfg.batchSize >= 1
  }

  function NextBackoff(cfg: RetryConfig, attempt: int): Time {
    if attempt <= 0 then cfg.initialBackoff else
    var multiplier := Wrap64(Pow2(attempt - 1));
    var backoff := Wrap64(multiplier * cfg.initialBackoff);
    if backoff > cfg.maxBackoff then cfg.maxBackoff else backoff
  }

  /** The schedule the code is after: double each time, up to the maximum. */
  ghost function IdealBackoff(cfg: RetryConfig, attempt: nat): Time
    requires attempt >= 1
  {
    var doubled := cfg.initialBackoff * Pow2(attempt - 1);
    if doubled > cfg.maxBackoff then cfg.maxBackoff else doubled
  }

  /** The unwrapped product for one attempt fits an int64. */
  ghost predicate ProductFits(cfg: RetryConfig, attempt: nat)
    requires attempt >= 1
  {
    cfg.initialBackoff * Pow2(attempt - 1) < TWO_63
  }

  /** Each setting is the one given, or its default when that is not positive; the longest wait is no shorter than the first. */
  ghost predicate IsDefaulted(given: RetryConfig, r: RetryConfig) {
    && r.maxAttempts == (if given.maxAttempts > 0 then given.maxAttempts else 5)
    && r.initialBackoff == (if given.initialBackoff > 0 then given.initialBackoff else MINUTE)
    && r.batchSize == (if given.batchSize > 0 then given.batchSize else 100)
    && var longest := if given.maxBackoff > 0 then given.maxBackoff else HOUR;
       r.maxBackoff == if longest < r.initialBackoff then r.initialBackoff else longest
  }

  /** Defaulting fills in what is missing, always passes validation, changes nothing that already passes, and is idempotent. */
  lemma DefaultingIsValid(webhooks: Option<RetryConfig>)
    ensures webhooks.Some? ==> IsDefaulted(webhooks.value, GetWebhookRetryConfig(webhooks))
    ensures webhooks.None? ==> IsDefaulted(RetryConfig(0, 0, 0, 0), GetWebhookRetryConfig(webhooks))
    ensures Validates(GetWebhookRetryConfig(webhooks))
    ensures webhooks.Some? && Validates(webhooks.value) ==> GetWebhookRetryConfig(webhooks) == webhooks.value
    ensures GetWebhookRetryConfig(Some(GetWebhookRetryConfig(webhooks))) == GetWebhookRetryConfig(webhooks)
  {
  }

  lemma BackoffIsWrappedProduct(cfg: RetryConfig, attempt: nat)
    requires attempt >= 1
    ensures var b := Wrap64(cfg.initialBackoff * Pow2(attempt - 1));
            NextBackoff(cfg, attempt) == if b > cfg.maxBackoff then cfg.maxBackoff else b
  {
    WrapProduct(Pow2(attempt - 1), cfg.initialBackoff);
    assert Pow2(attempt - 1) * cfg.initialBackoff == cfg.initialBackoff * Pow2(attempt - 1);
  }

  lemma ProductMonotone(cfg: RetryConfig, m: nat, n: nat)
    requires cfg.initialBackoff > 0 && 1 <= m <= n
    ensures cfg.initialBackoff <= cfg.initialBackoff * Pow2(m - 1) <= cfg.initialBackoff * Pow2(n - 1)
  {
    Pow2Monotone(m - 1, n - 1);
    assert cfg.initialBackoff * (Pow2(n - 1) - Pow2(m - 1)) >= 0;
    assert cfg.initialBackoff * (Pow2(m - 1) - 1) >= 0;
  }

  /** While the product fits, the backoff is the doubled-and-capped one, and it stays in range. */
  lemma BackoffWhileFits(cfg: RetryConfig, attempt: nat)
    requires Validates(cfg) && attempt >= 1 && ProductFits(cfg, attempt)
    ensures NextBackoff(cfg, attempt) == IdealBackoff(cfg, attempt)
    ensures cfg.initialBackoff <= NextBackoff(cfg, attempt) <= cfg.maxBackoff
  {
    BackoffIsWrappedProduct(cfg, attempt);
    ProductMonotone(cfg, attempt, attempt);
    WrapFits(cfg.initialBackoff * Pow2(attempt - 1));
  }

  /** Later attempts never wait less than earlier ones, as long as the later product fits. */
  lemma BackoffMonotone(cfg: RetryConfig, m: nat, n: nat)
    requires Validates(cfg) && 1 <= m <= n && ProductFits(cfg, n)
    ensures NextBackoff(cfg, m) <= NextBackoff(cfg, n)
  {
    ProductMonotone(cfg, m, n);
    BackoffWhileFits(cfg, m);
    BackoffWhileFits(cfg, n);
  }

  /** At the first attempt whose product overflows the backoff is negative: the retry is due at once. */
  lemma FirstOverflowIsNegative(cfg: RetryConfig, attempt: nat)
    requires Validates(cfg) && InRange(cfg) && attempt >= 1
    requires !ProductFits(cfg, attempt)
    ensures exists k: nat :: 1 <= k <= attempt && NextBackoff(cfg, k) < 0
    decreases attempt
  {
    assert Pow2(0) == 1;
    if attempt == 1 {
      assert false;
    } else if ProductFits(cfg, attempt - 1) {
      var half := cfg.initialBackoff * Pow2(attempt - 2);
      assert cfg.initialBackoff * Pow2(attempt - 1) == 2 * half by {
        assert Pow2(attempt - 1) == 2 * Pow2(attempt - 2);
      }
      BackoffIsWrappedProduct(cfg, attempt);
      WrapOverflow(2 * half);
      assert NextBackoff(cfg, attempt) < 0;
    } else {
      FirstOverflowIsNegative(cfg, attempt - 1);
    }
  }

  /**
   MarkFailure asks for a backoff only for attempts 1 .. maxAttempts-1. All of those follow the
   doubled-and-capped schedule exactly when the last of their products fits an int64.
   */
  lemma ScheduleIsExactIffProductFits(cfg: RetryConfig)
    requires Validates(cfg) && InRange(cfg)
    ensures (forall n: nat :: 1 <= n < cfg.maxAttempts ==> NextBackoff(cfg, n) == IdealBackoff(cfg, n))
       <==> (cfg.maxAttempts < 2 || ProductFits(cfg, cfg.maxAttempts - 1))
  {
    if cfg.maxAttempts >= 2 {
      var last := cfg.maxAttempts - 1;
      if ProductFits(cfg, last) {
        forall n: nat | 1 <= n < cfg.maxAttempts ensures NextBackoff(cfg, n) == IdealBackoff(cfg, n) {
          ProductMonotone(cfg, n, last);
          BackoffWhileFits(cfg, n);
        }
      } else {
        FirstOverflowIsNegative(cfg, last);
        var k: nat :| 1 <= k <= last && NextBackoff(cfg, k) < 0;
        ProductMonotone(cfg, k, k);
        assert IdealBackoff(cfg, k) > 0;
      }
    }
  }

  /** The shipped defaults are on the safe side. */
  lemma DefaultScheduleIsExact(n: nat)
    requires 1 <= n < DefaultWebhookRetryConfig().maxAttempts
    ensures NextBackoff(DefaultWebhookRetryConfig(), n) == IdealBackoff(DefaultWebhookRetryConfig(), n)
  {
    assert Pow2(3) == 8;
    ScheduleIsExactIffProductFits(DefaultWebhookRetryConfig());
  }

  /** A configuration that validates and still schedules its 29th failure in the past. */
  lemma BackoffOverflowWitness()
    ensures var cfg := RetryConfig(30, MINUTE, HOUR, 100);
            Validates(cfg) && GetWebhookRetryConfig(Some(cfg)) == cfg && NextBackoff(cfg, 29) < 0
  {
    var cfg := RetryConfig(30, MINUTE, HOUR, 100);
    assert Pow2(7) == 128;
    assert Pow2(14) == 128 * 128;
    assert Pow2(21) == 128 * 128 * 128;
    assert Pow2(28) == 128 * 128 * 128 * 128;
    BackoffIsWrappedProduct(cfg, 29);
    WrapOverflow(MINUTE * Pow2(28));
  }
}
