// pkg/middleware/ratelimit.go and internal/gateway/middleware/rate_limit_advanced.go: the token bucket
// both limiters use.

module TokenBuckets {

  datatype Name = Name(text: string)

  datatype Limit = Limit(requestsPerMin: int, burstSize: int)

  datatype Bucket = Bucket(tokens: real, maxTokens: real, refillRate: real, lastUpdate: real)

  function Full(limit: Limit, now: real): Bucket {
    Bucket(limit.burstSize as real, limit.burstSize as real, limit.requestsPerMin as real / 60.0, now)
  }

  function Min(x: real, y: real): real {
    if x < y then x else y
  }

  function Earned(elapsed: real, rate: real): real {
    elapsed * rate
  }

  function Refilled(b: Bucket, now: real): Bucket {
    b.(tokens := Min(b.maxTokens, b.tokens + Earned(now - b.lastUpdate, b.refillRate)), lastUpdate := now)
  }

  datatype Drawn = Drawn(bucket: Bucket, allowed: bool)

  function Draw(b: Bucket, now: real): Drawn {
    var r := Refilled(b, now);
    if r.tokens < 1.0 then Drawn(r, false) else Drawn(r.(tokens := r.tokens - 1.0), true)
  }

  lemma Grows(x: real, elapsed: real, rate: real)
    requires rate >= 0.0 && elapsed >= x >= 0.0
    ensures Earned(elapsed, rate) >= Earned(x, rate) >= 0.0
  {
  }

  lemma Earns(b: Bucket, now: real)
    requires b.lastUpdate <= now && b.refillRate >= 0.0 && b.tokens >= 0.0 && b.maxTokens >= 0.0
    ensures Refilled(b, now).tokens >= 0.0
  {
    Grows(0.0, now - b.lastUpdate, b.refillRate);
  }

  lemma SameInstant(b: Bucket, now: real)
    requires b.lastUpdate == now && b.tokens <= b.maxTokens
    ensures Refilled(b, now) == b
  {
    assert Earned(now - b.lastUpdate, b.refillRate) == 0.0;
  }

  lemma NothingEarned(b: Bucket, now: real)
    requires b.lastUpdate == now
    ensures Refilled(b, now).tokens <= b.tokens
  {
    assert Earned(now - b.lastUpdate, b.refillRate) == 0.0;
  }

  lemma EarnedMore(e0: real, e1: real, rate: real)
    ensures Earned(e0 + e1, rate) == Earned(e0, rate) + Earned(e1, rate)
  {
  }

  lemma DrawnNow(b: Bucket, now: real)
    ensures Refilled(b, now).tokens <= b.maxTokens
    ensures Refilled(Draw(b, now).bucket, now).tokens == Refilled(b, now).tokens - if Draw(b, now).allowed then 1.0 else 0.0
    ensures b.lastUpdate == now && b.tokens <= b.maxTokens ==> Refilled(b, now).tokens == b.tokens
  {
    SameInstant(Draw(b, now).bucket, now);
    if b.lastUpdate == now && b.tokens <= b.maxTokens {
      SameInstant(b, now);
    }
  }
}
