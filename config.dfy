/**
 * Client configuration: how often and how long to back off when rate
 * limited (`RetryConfig`), how rate limiting is recognised
 * (`RateLimitConfig`), and the two together (`ClientConfig`).
 */
module ClientConfigs {

  /** Retry policy. Delays are in seconds. */
  datatype RetryConfig = RetryConfig(maxRetries: nat, baseDelay: nat, maxDelay: nat, enabled: bool)

  /** Rate-limit detection: by HTTP status, by body patterns, or both. */
  datatype RateLimitConfig = RateLimitConfig(
    detectByStatus: bool,
    detectByPatterns: bool,
    patterns: seq<string>,
    customPatterns: seq<string>)

  datatype ClientConfig = ClientConfig(retry: RetryConfig, rateLimit: RateLimitConfig)

  /** The texts that, found in a response body, mark it as rate limited. */
  const DefaultRateLimitPatterns: seq<string> := [
    "you've tried to log in too many times",
    "you're requesting too many pages",
    "slow down",
    "too fast",
    "rate limit",
    "throttled",
    "temporarily blocked",
    "temporarily restricted",
    "captcha",
    "verify you're human",
    "prove you're not a robot",
    "security check",
    "service temporarily unavailable",
    "quota exceeded",
    "limit exceeded",
    "daily limit"
  ]

  /** `RetryConfig::default`: three retries, 5 s base delay, 5 min cap. */
  const DefaultRetry: RetryConfig := RetryConfig(3, 5, 300, true)

  /** `RetryConfig::disabled`. */
  const DisabledRetry: RetryConfig := RetryConfig(0, 5, 300, false)

  /** `RateLimitConfig::default`: both detections, the default patterns, no custom ones. */
  const DefaultRateLimit: RateLimitConfig := RateLimitConfig(true, true, DefaultRateLimitPatterns, [])

  /** `RateLimitConfig::disabled`. */
  const DisabledRateLimit: RateLimitConfig := RateLimitConfig(false, false, [], [])

  /** `ClientConfig::new` / `default`. */
  const DefaultClient: ClientConfig := ClientConfig(DefaultRetry, DefaultRateLimit)

  /** `RetryConfig::with_retries`: retrying is enabled exactly when some retries are allowed. */
  function WithRetries(maxRetries: nat): (c: RetryConfig)
    ensures c.maxRetries == maxRetries
    ensures c.enabled <==> maxRetries > 0
    ensures c.baseDelay == DefaultRetry.baseDelay && c.maxDelay == DefaultRetry.maxDelay
  {
    DefaultRetry.(maxRetries := maxRetries, enabled := maxRetries > 0)
  }

  /** `RetryConfig::with_delays`: the default policy with other delays. */
  function WithDelays(baseDelay: nat, maxDelay: nat): (c: RetryConfig)
    ensures c.baseDelay == baseDelay && c.maxDelay == maxDelay
    ensures c.(baseDelay := DefaultRetry.baseDelay, maxDelay := DefaultRetry.maxDelay) == DefaultRetry
  {
    DefaultRetry.(baseDelay := baseDelay, maxDelay := maxDelay)
  }

  /** `RateLimitConfig::status_only`. */
  const StatusOnlyRateLimit: RateLimitConfig := RateLimitConfig(true, false, [], [])

  /** `RateLimitConfig::patterns_only`: the default patterns, no status detection. */
  const PatternsOnlyRateLimit: RateLimitConfig := DefaultRateLimit.(detectByStatus := false)

  /** `RateLimitConfig::custom_patterns_only`: both detections off, only the given patterns. */
  function CustomPatternsOnly(patterns: seq<string>): (c: RateLimitConfig)
    ensures !c.detectByStatus && !c.detectByPatterns
    ensures c.patterns == [] && c.customPatterns == patterns
  {
    RateLimitConfig(false, false, [], patterns)
  }

  /** `RateLimitConfig::with_custom_patterns`: replaces the custom patterns only. */
  function WithCustomPatterns(c: RateLimitConfig, patterns: seq<string>): (r: RateLimitConfig)
    ensures r.customPatterns == patterns && r.(customPatterns := c.customPatterns) == c
  {
    c.(customPatterns := patterns)
  }

  /** `RateLimitConfig::with_patterns`: replaces the built-in patterns only. */
  function WithPatterns(c: RateLimitConfig, patterns: seq<string>): (r: RateLimitConfig)
    ensures r.patterns == patterns && r.(patterns := c.patterns) == c
  {
    c.(patterns := patterns)
  }

  /** `ClientConfig::with_retries_disabled`. */
  const RetriesDisabledClient: ClientConfig := ClientConfig(DisabledRetry, DefaultRateLimit)

  /** `ClientConfig::with_rate_limiting_disabled`. */
  const RateLimitingDisabledClient: ClientConfig := ClientConfig(DefaultRetry, DisabledRateLimit)

  /** `ClientConfig::minimal`. */
  const MinimalClient: ClientConfig := ClientConfig(DisabledRetry, DisabledRateLimit)

  /** `ClientConfig::with_retry_config`. */
  function WithRetryConfig(c: ClientConfig, retry: RetryConfig): (r: ClientConfig)
    ensures r.retry == retry && r.rateLimit == c.rateLimit
  {
    c.(retry := retry)
  }

  /** `ClientConfig::with_rate_limit_config`. */
  function WithRateLimitConfig(c: ClientConfig, rateLimit: RateLimitConfig): (r: ClientConfig)
    ensures r.rateLimit == rateLimit && r.retry == c.retry
  {
    c.(rateLimit := rateLimit)
  }

  /**
   * `ClientConfig::with_max_retries`: sets the retry count and enables retrying
   * exactly when the count is positive; the delays and detection are kept.
   */
  function WithMaxRetries(c: ClientConfig, maxRetries: nat): (r: ClientConfig)
    ensures r.retry.maxRetries == maxRetries
    ensures r.retry.enabled <==> maxRetries > 0
    ensures r.retry.baseDelay == c.retry.baseDelay && r.retry.maxDelay == c.retry.maxDelay
    ensures r.rateLimit == c.rateLimit
  {
    c.(retry := c.retry.(maxRetries := maxRetries, enabled := maxRetries > 0))
  }

  /** `ClientConfig::with_retry_delays`: the delays change, nothing else. */
  function WithRetryDelays(c: ClientConfig, baseDelay: nat, maxDelay: nat): (r: ClientConfig)
    ensures r.retry.baseDelay == baseDelay && r.retry.maxDelay == maxDelay
    ensures r.retry.maxRetries == c.retry.maxRetries && r.retry.enabled == c.retry.enabled
    ensures r.rateLimit == c.rateLimit
  {
    c.(retry := c.retry.(baseDelay := baseDelay, maxDelay := maxDelay))
  }

  /** `ClientConfig::with_custom_rate_limit_patterns`. */
  function WithCustomRateLimitPatterns(c: ClientConfig, patterns: seq<string>): (r: ClientConfig)
    ensures r.rateLimit.customPatterns == patterns
    ensures r.rateLimit.(customPatterns := c.rateLimit.customPatterns) == c.rateLimit && r.retry == c.retry
  {
    c.(rateLimit := c.rateLimit.(customPatterns := patterns))
  }

  /** `ClientConfig::with_status_detection`. */
  function WithStatusDetection(c: ClientConfig, enabled: bool): (r: ClientConfig)
    ensures r.rateLimit.detectByStatus == enabled
    ensures r.rateLimit.(detectByStatus := c.rateLimit.detectByStatus) == c.rateLimit && r.retry == c.retry
  {
    c.(rateLimit := c.rateLimit.(detectByStatus := enabled))
  }

  /** `ClientConfig::with_pattern_detection`. */
  function WithPatternDetection(c: ClientConfig, enabled: bool): (r: ClientConfig)
    ensures r.rateLimit.detectByPatterns == enabled
    ensures r.rateLimit.(detectByPatterns := c.rateLimit.detectByPatterns) == c.rateLimit && r.retry == c.retry
  {
    c.(rateLimit := c.rateLimit.(detectByPatterns := enabled))
  }

  /**
   * Setting a positive retry count on the default client gives the same retry
   * policy as `RetryConfig::with_retries`; a zero count disables retrying.
   */
  lemma MaxRetriesAgreesWithRetries(n: nat)
    ensures WithMaxRetries(DefaultClient, n).retry == WithRetries(n)
    ensures n == 0 ==> !WithMaxRetries(DefaultClient, n).retry.enabled
  {
  }
}
