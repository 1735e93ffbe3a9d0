/**
 * Per-key admission control: a map from rate-limit key to a token bucket and the
 * time the key was last seen, an idle sweep, and the interceptor that derives the
 * key and rejects over-limit calls. Time is in nanoseconds and is passed in.
 */
module RateLimit {
  import opened Wrappers
  import opened Status

  /** `time.Minute` in nanoseconds. */
  const Minute: int := 60_000_000_000

  /** The sweep removes entries last seen more than this long ago. */
  const IdleCutoff: int := 10 * Minute

  /** The refill rate used when the configured one is not positive. */
  const DefaultPerMinute: int := 60

  /**
   * A token bucket in integer arithmetic. A token is worth `interval` units of
   * allowance, one unit accrues per nanosecond, and `tokens` counts units, so the
   * bucket holds at most `burst * interval` of them. `interval == 0` is an
   * unlimited rate (every call is allowed).
   */
  datatype Bucket = Bucket(interval: int, burst: int, tokens: int, last: int)

  /** `clientEntry`: a key's bucket and when the key was last seen. */
  datatype ClientEntry = ClientEntry(bucket: Bucket, lastSeen: int)

  /** The nanoseconds per token that `rate.Every(time.Minute / limitPerMinute)` gives, after defaulting. */
  function Interval(limitPerMinute: int): (r: int)
    ensures limitPerMinute <= 0 ==> r == Minute / DefaultPerMinute
    ensures limitPerMinute > 0 ==> r == Minute / limitPerMinute
    ensures r >= 0
  {
    var perMinute := if limitPerMinute <= 0 then DefaultPerMinute else limitPerMinute;
    Minute / perMinute
  }

  /** A bucket created at `now` is full. */
  function NewBucket(interval: int, burst: int, now: int): Bucket {
    Bucket(interval, burst, burst * interval, now)
  }

  /** The allowance after refilling up to `now`; time running backwards adds nothing. */
  function Refilled(b: Bucket, now: int): (t: int)
    ensures 0 <= b.tokens <= b.burst * b.interval ==> b.tokens <= t <= b.burst * b.interval
    ensures b.last <= now && b.tokens + (now - b.last) <= b.burst * b.interval ==> t == b.tokens + (now - b.last)
    ensures b.last <= now && b.tokens + (now - b.last) > b.burst * b.interval ==> t == b.burst * b.interval
    ensures now < b.last && b.tokens <= b.burst * b.interval ==> t == b.tokens
  {
    var elapsed := if now < b.last then 0 else now - b.last;
    var t := b.tokens + elapsed;
    if t > b.burst * b.interval then b.burst * b.interval else t
  }

  /**
   * `Limiter.Allow` at time `now`: admit and take one token if a whole token is
   * available, otherwise reject and leave the bucket as it was.
   */
  function TryTake(b: Bucket, now: int): (r: (bool, Bucket))
    ensures b.interval == 0 ==> r == (true, b)
    ensures !r.0 ==> r.1 == b
    ensures r.1.interval == b.interval && r.1.burst == b.burst
    ensures b.interval > 0 ==> (r.0 <==> b.burst >= 1 && Refilled(b, now) >= b.interval)
    ensures b.interval > 0 && r.0 ==> r.1 == b.(tokens := Refilled(b, now) - b.interval, last := now)
    ensures 0 <= b.tokens <= b.burst * b.interval ==> 0 <= r.1.tokens <= r.1.burst * r.1.interval
  {
    if b.interval == 0 then (true, b)
    else
      var t := Refilled(b, now);
      if b.burst >= 1 && t >= b.interval then (true, b.(tokens := t - b.interval, last := now))
      else (false, b)
  }

  /** The answers of n calls in a row at the same instant. */
  function AllowMany(b: Bucket, now: int, n: nat): seq<bool>
    decreases n
  {
    if n == 0 then [] else var r := TryTake(b, now); [r.0] + AllowMany(r.1, now, n - 1)
  }

  /** With k whole tokens left and no time passing, the next k calls are admitted and the one after is not. */
  lemma {:induction false} DrainBucket(b: Bucket, now: int, k: nat)
    requires b.interval > 0 && b.burst >= 1
    requires b.last == now && b.tokens == k * b.interval && k <= b.burst
    ensures AllowMany(b, now, k + 1) == seq(k, i => true) + [false]
    decreases k
  {
    var r := TryTake(b, now);
    if k == 0 {
      assert !r.0;
    } else {
      assert r.0 && r.1.tokens == (k - 1) * b.interval && r.1.last == now by {
        TokensInRange(k, b.burst, b.interval);
      }
      DrainBucket(r.1, now, k - 1);
      assert seq(k, i => true) == [true] + seq(k - 1, i => true);
    }
  }

  /** k whole tokens fit in a full bucket of burst tokens, and taking one leaves k - 1. */
  lemma TokensInRange(k: nat, burst: nat, interval: int)
    requires 1 <= k <= burst && interval > 0
    ensures interval <= k * interval <= burst * interval
    ensures k * interval - interval == (k - 1) * interval
  {
    calc {
      k * interval;
      (k - 1) * interval + interval;
    }
    assert (burst - k) * interval >= 0;
    assert burst * interval == k * interval + (burst - k) * interval;
  }

  /** A fresh key with burst B is admitted B times in a row and then rejected, with no time passing. */
  lemma BurstThenReject(interval: int, burst: nat, now: int)
    requires interval > 0 && burst >= 1
    ensures AllowMany(NewBucket(interval, burst, now), now, burst + 1) == seq(burst, i => true) + [false]
  {
    DrainBucket(NewBucket(interval, burst, now), now, burst);
  }

  /** Once a call is rejected, waiting one interval earns the next admission. */
  lemma RefillAfterInterval(b: Bucket, now: int)
    requires b.interval > 0 && b.burst >= 1 && b.last <= now
    requires 0 <= b.tokens <= b.burst * b.interval
    ensures TryTake(b, now + b.interval).0
  {
    assert Refilled(b, now + b.interval) >= b.interval;
  }

  /** The entries the sweep at `now` keeps: exactly those seen at or after the cutoff. */
  function Swept(clients: map<string, ClientEntry>, now: int): (r: map<string, ClientEntry>)
    ensures forall k :: k in r <==> k in clients && clients[k].lastSeen >= now - IdleCutoff
    ensures forall k :: k in r ==> r[k] == clients[k]
  {
    map k | k in clients && clients[k].lastSeen >= now - IdleCutoff :: clients[k]
  }

  /**
   * The rate-limit key: `"email:" + e` for a request carrying a non-empty email,
   * else the peer address when known, else `"unknown"`.
   * `email` is None for a request without an email field.
   */
  function RateKey(email: Option<string>, peer: Option<string>): (key: string)
  {
    if email.Some? && email.value != "" then "email:" + email.value
    else if peer.Some? then peer.value
    else "unknown"
  }

  /** Requests naming an account share a key, whatever address they come from. */
  lemma EmailKeyIgnoresPeer(e: string, p1: Option<string>, p2: Option<string>)
    requires e != ""
    ensures RateKey(Some(e), p1) == RateKey(Some(e), p2)
    ensures RateKey(Some(e), p1)[..6] == "email:"
  {
  }

  /** Two accounts never share a key. */
  lemma EmailKeyInjective(e1: string, e2: string, p1: Option<string>, p2: Option<string>)
    requires e1 != "" && e2 != ""
    requires RateKey(Some(e1), p1) == RateKey(Some(e2), p2)
    ensures e1 == e2
  {
    assert RateKey(Some(e1), p1)[6..] == e1;
  }

  /** A request without an email is keyed by its peer, and only without a peer by "unknown". */
  lemma FallbackKey(email: Option<string>, peer: Option<string>)
    requires email.None? || email.value == ""
    ensures peer.Some? ==> RateKey(email, peer) == peer.value
    ensures peer.None? ==> RateKey(email, peer) == "unknown"
  {
  }

  /** What the interceptor does with a call. */
  datatype Admission = RunHandler | Rejected(err: StatusError)

  /** `LimiterStore` without its cleanup goroutine; `Sweep` is one tick of it. */
  class LimiterStore {
    var interval: int
    var burst: int
    var clients: map<string, ClientEntry>

    ghost predicate Valid()
      reads this
    {
      interval >= 0 && forall k :: k in clients ==> clients[k].bucket.interval == interval && clients[k].bucket.burst == burst
    }

    /** `NewLimiterStore`: a non-positive limit becomes 60 per minute. */
    constructor (limitPerMinute: int, burst: int)
      ensures Valid()
      ensures interval == Interval(limitPerMinute) && this.burst == burst && clients == map[]
    {
      interval := Interval(limitPerMinute);
      this.burst := burst;
      clients := map[];
    }

    /**
     * `getLimiter`: a known key keeps its bucket and has its lastSeen refreshed;
     * an unknown key gets exactly one new entry with a full bucket.
     */
    method GetLimiter(key: string, now: int) returns (b: Bucket)
      requires Valid()
      modifies this
      ensures Valid()
      ensures interval == old(interval) && burst == old(burst)
      ensures key in old(clients) ==> b == old(clients)[key].bucket
      ensures key !in old(clients) ==> b == NewBucket(interval, burst, now)
      ensures clients == old(clients)[key := ClientEntry(b, now)]
    {
      if key in clients {
        b := clients[key].bucket;
      } else {
        b := NewBucket(interval, burst, now);
      }
      clients := clients[key := ClientEntry(b, now)];
    }

    /** `Allow`: the key's bucket decides, and its new state is kept under the key. */
    method Allow(key: string, now: int) returns (ok: bool)
      requires Valid()
      modifies this
      ensures Valid()
      ensures interval == old(interval) && burst == old(burst)
      ensures var b := if key in old(clients) then old(clients)[key].bucket else NewBucket(interval, burst, now);
        && ok == TryTake(b, now).0
        && clients == old(clients)[key := ClientEntry(TryTake(b, now).1, now)]
    {
      var b := GetLimiter(key, now);
      var r := TryTake(b, now);
      ok := r.0;
      clients := clients[key := ClientEntry(r.1, now)];
    }

    /** One tick of `cleanupLoop`: delete every entry last seen before now - 10 minutes. */
    method Sweep(now: int)
      requires Valid()
      modifies this
      ensures Valid()
      ensures interval == old(interval) && burst == old(burst)
      ensures clients == Swept(old(clients), now)
    {
      var cutoff := now - IdleCutoff;
      var keys := clients.Keys;
      while keys != {}
        invariant keys <= old(clients).Keys
        invariant forall k :: k in clients <==> k in old(clients) && (k in keys || old(clients)[k].lastSeen >= cutoff)
        invariant forall k :: k in clients ==> clients[k] == old(clients)[k]
        invariant interval == old(interval) && burst == old(burst)
        decreases keys
      {
        var k :| k in keys;
        if clients[k].lastSeen < cutoff {
          clients := clients - {k};
        }
        keys := keys - {k};
      }
    }
  }

  /** `limitedMethods[m]` of a Go map: a missing method reads as false. */
  predicate Limited(limitedMethods: map<string, bool>, m: string) {
    m in limitedMethods && limitedMethods[m]
  }

  /**
   * `RateLimitUnaryInterceptor`: methods outside `limitedMethods` run without
   * touching the store; the others are keyed by RateKey and rejected with
   * ResourceExhausted when the store does not allow them.
   */
  method RateLimitInterceptor(store: LimiterStore, limitedMethods: map<string, bool>, fullMethod: string,
                              email: Option<string>, peer: Option<string>, now: int)
    returns (r: Admission)
    requires store.Valid()
    modifies store
    ensures store.Valid()
    ensures !Limited(limitedMethods, fullMethod) ==> r == RunHandler && unchanged(store)
    ensures Limited(limitedMethods, fullMethod) ==>
      var key := RateKey(email, peer);
      var b := if key in old(store.clients) then old(store.clients)[key].bucket else NewBucket(old(store.interval), old(store.burst), now);
      && (r == if TryTake(b, now).0 then RunHandler else Rejected(StatusError(ResourceExhausted, "rate limit exceeded")))
      && store.clients == old(store.clients)[key := ClientEntry(TryTake(b, now).1, now)]
      && store.interval == old(store.interval) && store.burst == old(store.burst)
  {
    if !Limited(limitedMethods, fullMethod) {
      return RunHandler;
    }
    var key := "unknown";
    if peer.Some? {
      key := peer.value;
    }
    if email.Some? && email.value != "" {
      key := "email:" + email.value;
    }
    var ok := store.Allow(key, now);
    if !ok {
      return Rejected(StatusError(ResourceExhausted, "rate limit exceeded"));
    }
    return RunHandler;
  }

  /** ratelimit_test: limit 5, burst 5; five calls on one key pass at once and the sixth is refused. */
  method BurstScenario(now: int) returns (answers: seq<bool>)
    ensures answers == [true, true, true, true, true, false]
  {
    var s := new LimiterStore(5, 5);
    var key := "test@example.com";
    BurstThenReject(s.interval, 5, now);
    var a1 := s.Allow(key, now);
    var a2 := s.Allow(key, now);
    var a3 := s.Allow(key, now);
    var a4 := s.Allow(key, now);
    var a5 := s.Allow(key, now);
    var a6 := s.Allow(key, now);
    answers := [a1, a2, a3, a4, a5, a6];
  }
}
