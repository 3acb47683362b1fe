/** Per-client token-bucket rate limiting (backend/internal/auth/ratelimit.go).
    Time is a monotonic clock reading in nanoseconds, passed in by the caller;
    token counts are reals. */
module RateLimit {
  import opened Strings
  import opened Arith

  /** `bucket`: the tokens left and the time of the last check. */
  datatype Bucket = Bucket(tokens: real, lastCheck: int)

  const NanosPerSecond := 1_000_000_000

  /** Buckets idle for longer than ten minutes are evicted. */
  const IdleLimit := 10 * 60 * NanosPerSecond

  /** Seconds since the bucket was last checked (`now.Sub(b.lastCheck).Seconds()`). */
  function Elapsed(b: Bucket, now: int): real {
    (now - b.lastCheck) as real / NanosPerSecond as real
  }

  /** The tokens after refilling for the elapsed time, capped at `capacity`. */
  function Refill(b: Bucket, now: int, rate: real, capacity: real): (tokens: real)
    ensures tokens <= capacity
  {
    var t := b.tokens + Elapsed(b, now) * rate;
    if t > capacity then capacity else t
  }

  /** With time moving forward and a non-negative rate, refilling never
      loses tokens below min(tokens, capacity), and it reaches capacity
      once enough time has passed. */
  lemma RefillGrows(b: Bucket, now: int, rate: real, capacity: real)
    requires now >= b.lastCheck && rate >= 0.0
    ensures Refill(b, now, rate, capacity) >= (if b.tokens <= capacity then b.tokens else capacity)
    ensures b.tokens + Elapsed(b, now) * rate >= capacity ==> Refill(b, now, rate, capacity) == capacity
  {
    MulNonNegative(Elapsed(b, now), rate);
  }

  /** Whether `allow` admits the request, and the key's bucket afterwards. */
  datatype Decision = Decision(allowed: bool, bucket: Bucket)

  /** `allow` for `key` at time `now`: an unseen key is admitted with a new
      bucket of capacity-1 tokens; a known key's bucket is refilled and
      stamped with `now`, the request is denied when fewer than one token
      is left and otherwise admitted for one token. */
  function Decide(buckets: map<string, Bucket>, key: string, now: int, rate: real, capacity: real): (d: Decision)
    ensures d.bucket.lastCheck == now
    ensures key !in buckets ==> d.allowed && d.bucket.tokens == capacity - 1.0
    ensures key in buckets ==> (d.allowed <==> Refill(buckets[key], now, rate, capacity) >= 1.0)
  {
    if key !in buckets then Decision(true, Bucket(capacity - 1.0, now))
    else
      var tokens := Refill(buckets[key], now, rate, capacity);
      if tokens < 1.0 then Decision(false, Bucket(tokens, now))
      else Decision(true, Bucket(tokens - 1.0, now))
  }

  /** A denial leaves the refilled tokens in place; an admission takes
      exactly one token from them. */
  lemma DecideTokens(buckets: map<string, Bucket>, key: string, now: int, rate: real, capacity: real)
    requires key in buckets
    ensures var d := Decide(buckets, key, now, rate, capacity);
            var refilled := Refill(buckets[key], now, rate, capacity);
            && (!d.allowed ==> d.bucket.tokens == refilled)
            && (d.allowed ==> d.bucket.tokens == refilled - 1.0)
  {}

  /** Every bucket holds at most `capacity` tokens. */
  predicate Bounded(buckets: map<string, Bucket>, capacity: real) {
    forall k :: k in buckets ==> buckets[k].tokens <= capacity
  }

  /** Every bucket holds a non-negative number of tokens. */
  predicate NonNegative(buckets: map<string, Bucket>) {
    forall k :: k in buckets ==> buckets[k].tokens >= 0.0
  }

  /** No bucket was checked later than `now` (the clock is monotonic). */
  predicate CheckedBy(buckets: map<string, Bucket>, now: int) {
    forall k :: k in buckets ==> buckets[k].lastCheck <= now
  }

  /** `allow` keeps every bucket at or below capacity. */
  lemma DecideKeepsBounded(buckets: map<string, Bucket>, key: string, now: int, rate: real, capacity: real)
    requires Bounded(buckets, capacity)
    ensures Bounded(buckets[key := Decide(buckets, key, now, rate, capacity).bucket], capacity)
  {}

  /** With a capacity of at least one token, a non-negative rate and a
      monotonic clock, `allow` never drives a bucket below zero. */
  lemma DecideKeepsNonNegative(buckets: map<string, Bucket>, key: string, now: int, rate: real, capacity: real)
    requires NonNegative(buckets) && CheckedBy(buckets, now)
    requires capacity >= 1.0 && rate >= 0.0
    ensures NonNegative(buckets[key := Decide(buckets, key, now, rate, capacity).bucket])
  {
    if key in buckets {
      var b := buckets[key];
      RefillGrows(b, now, rate, capacity);
    }
  }

  /** A denied request, repeated at the same instant, is denied again and
      leaves the bucket as it was. */
  lemma DenialIsStable(buckets: map<string, Bucket>, key: string, now: int, rate: real, capacity: real)
    requires !Decide(buckets, key, now, rate, capacity).allowed
    ensures var b1 := buckets[key := Decide(buckets, key, now, rate, capacity).bucket];
            Decide(b1, key, now, rate, capacity) == Decide(buckets, key, now, rate, capacity)
  {
    var d := Decide(buckets, key, now, rate, capacity);
    var b1 := buckets[key := d.bucket];
    assert Elapsed(b1[key], now) == 0.0;
  }

  /** A bucket is stale when it was last checked more than ten minutes
      before `now`. */
  predicate Stale(b: Bucket, now: int) {
    b.lastCheck < now - IdleLimit
  }

  /** `cleanup` (reference definition): the buckets that are not stale. */
  function Evict(buckets: map<string, Bucket>, now: int): (kept: map<string, Bucket>)
    ensures kept.Keys <= buckets.Keys
  {
    map k | k in buckets && !Stale(buckets[k], now) :: buckets[k]
  }

  /** Eviction removes exactly the stale buckets and leaves the others as
      they were. */
  lemma EvictExactly(buckets: map<string, Bucket>, now: int, k: string)
    ensures k in Evict(buckets, now) <==> k in buckets && !Stale(buckets[k], now)
    ensures k in Evict(buckets, now) ==> Evict(buckets, now)[k] == buckets[k]
  {}

  /** Evicting twice at the same time is evicting once, and eviction keeps
      the capacity bound. */
  lemma EvictIdempotent(buckets: map<string, Bucket>, now: int, capacity: real)
    ensures Evict(Evict(buckets, now), now) == Evict(buckets, now)
    ensures Bounded(buckets, capacity) ==> Bounded(Evict(buckets, now), capacity)
  {}

  /** After its bucket is evicted, a client is treated as new: admitted with
      capacity-1 tokens. */
  lemma EvictedKeyStartsOver(buckets: map<string, Bucket>, key: string, now: int, later: int, rate: real, capacity: real)
    requires key in buckets && Stale(buckets[key], now)
    ensures Decide(Evict(buckets, now), key, later, rate, capacity) == Decision(true, Bucket(capacity - 1.0, later))
  {
    EvictExactly(buckets, now, key);
  }

  /** A bucket just checked by `allow` survives a cleanup at the same time. */
  lemma CheckedKeySurvives(buckets: map<string, Bucket>, key: string, now: int, rate: real, capacity: real)
    ensures key in Evict(buckets[key := Decide(buckets, key, now, rate, capacity).bucket], now)
  {}

  /** `rateLimiter`: the bucket table and the limits derived from the
      configured number of requests per minute. */
  class RateLimiter {
    var buckets: map<string, Bucket>
    /** Tokens per second. */
    const rate: real
    /** The largest burst. */
    const capacity: real

    /** The set-up in `RateLimit`: a per-second rate of requestsPerMinute/60
        and a burst capacity of requestsPerMinute, with no buckets yet. */
    constructor (requestsPerMinute: int)
      ensures rate == requestsPerMinute as real / 60.0
      ensures capacity == requestsPerMinute as real
      ensures buckets == map[]
      ensures Valid()
    {
      rate := requestsPerMinute as real / 60.0;
      capacity := requestsPerMinute as real;
      buckets := map[];
    }

    /** No bucket exceeds the capacity. */
    predicate Valid()
      reads this
    {
      Bounded(buckets, capacity)
    }

    /** `allow`: decides the request and updates only the key's bucket. */
    method Allow(key: string, now: int) returns (allowed: bool)
      modifies this
      ensures var d := Decide(old(buckets), key, now, rate, capacity);
              allowed == d.allowed && buckets == old(buckets)[key := d.bucket]
      ensures forall k :: k != key && k in old(buckets) ==> k in buckets && buckets[k] == old(buckets)[k]
      ensures buckets.Keys == old(buckets).Keys + {key}
      ensures old(Valid()) ==> Valid()
    {
      if key !in buckets {
        buckets := buckets[key := Bucket(capacity - 1.0, now)];
        return true;
      }
      var b := buckets[key];
      var tokens := b.tokens + Elapsed(b, now) * rate;
      if tokens > capacity {
        tokens := capacity;
      }
      assert tokens == Refill(b, now, rate, capacity);
      if tokens < 1.0 {
        buckets := buckets[key := Bucket(tokens, now)];
        return false;
      }
      buckets := buckets[key := Bucket(tokens - 1.0, now)];
      allowed := true;
    }

    /** `cleanup`: deletes the stale buckets one key at a time. */
    method Cleanup(now: int)
      modifies this
      ensures buckets == Evict(old(buckets), now)
      ensures old(Valid()) ==> Valid()
    {
      var threshold := now - IdleLimit;
      ghost var original := buckets;
      var keys := buckets.Keys;
      while keys != {}
        invariant keys <= original.Keys
        invariant forall k :: k in buckets <==> k in original && (k in keys || !Stale(original[k], now))
        invariant forall k :: k in buckets ==> buckets[k] == original[k]
        decreases |keys|
      {
        var key :| key in keys;
        if buckets[key].lastCheck < threshold {
          buckets := buckets - {key};
        }
        keys := keys - {key};
      }
      assert buckets.Keys == Evict(original, now).Keys;
    }
  }

  /** `clientIP`: the first X-Forwarded-For entry, else X-Real-IP, else the
      remote address without its port. A missing header is the empty
      string, as `Header.Get` returns it. */
  function ClientIP(forwardedFor: string, realIP: string, remoteAddr: string): (ip: string)
    ensures |ip| <= |forwardedFor| + |realIP| + |remoteAddr|
  {
    if forwardedFor != "" then
      var idx := IndexOf(forwardedFor, ',');
      if idx != -1 then TrimSpace(forwardedFor[..idx]) else TrimSpace(forwardedFor)
    else if realIP != "" then TrimSpace(realIP)
    else
      var idx := LastIndexOf(remoteAddr, ':');
      if idx != -1 then remoteAddr[..idx] else remoteAddr
  }

  /** With X-Forwarded-For present, the address is its first entry trimmed:
      the text before the first comma, or all of it when there is none. */
  lemma ClientIPForwarded(forwardedFor: string, realIP: string, remoteAddr: string)
    requires forwardedFor != ""
    ensures exists n :: && 0 <= n <= |forwardedFor| && ',' !in forwardedFor[..n]
                        && (n == |forwardedFor| || forwardedFor[n] == ',')
                        && ClientIP(forwardedFor, realIP, remoteAddr) == TrimSpace(forwardedFor[..n])
  {
    var idx := IndexOf(forwardedFor, ',');
    if idx == -1 {
      assert forwardedFor[..|forwardedFor|] == forwardedFor;
    } else {
      assert forall i :: 0 <= i < idx ==> forwardedFor[..idx][i] == forwardedFor[i];
    }
  }

  /** The first entry of X-Forwarded-For never holds a comma. */
  lemma ClientIPForwardedHasNoComma(forwardedFor: string, realIP: string, remoteAddr: string)
    requires forwardedFor != ""
    ensures ',' !in ClientIP(forwardedFor, realIP, remoteAddr)
  {
    var idx := IndexOf(forwardedFor, ',');
    var field := if idx != -1 then forwardedFor[..idx] else forwardedFor;
    assert ',' !in field by {
      if idx != -1 {
        assert forall i :: 0 <= i < idx ==> field[i] == forwardedFor[i];
      }
    }
    TrimSpaceSlice(field);
  }

  /** Without X-Forwarded-For, a present X-Real-IP is used, trimmed. */
  lemma ClientIPReal(realIP: string, remoteAddr: string)
    requires realIP != ""
    ensures ClientIP("", realIP, remoteAddr) == TrimSpace(realIP)
  {}

  /** Without either header, the remote address is cut at its last colon:
      the result is the text before it, and the text after it holds no
      colon; an address without a colon is kept whole. */
  lemma ClientIPRemote(remoteAddr: string)
    ensures var ip := ClientIP("", "", remoteAddr);
            && IsPrefix(ip, remoteAddr)
            && (':' !in remoteAddr ==> ip == remoteAddr)
            && (':' in remoteAddr ==> remoteAddr[|ip|] == ':' && ':' !in remoteAddr[|ip| + 1..])
  {
    var idx := LastIndexOf(remoteAddr, ':');
    if idx != -1 {
      var tail := remoteAddr[idx + 1..];
      assert forall i :: 0 <= i < |tail| ==> tail[i] == remoteAddr[idx + 1 + i];
    }
  }
}
