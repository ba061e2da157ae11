/**
 * The limiter over Redis, src/rate-limit.ts: one atomic script over two counters and their
 * notification claims. A key is gone at the instant it expires.
 */
module RateLimitRedis {
  import opened Basics
  import opened RateLimit
  import opened RateBound

  /** A counter without expiry is what an interrupted older writer may have left. */
  datatype Counter = Counter(count: nat, expireAt: Option<int>)

  predicate Alive(expireAt: Option<int>, at: int) {
    expireAt.Some? ==> expireAt.value > at
  }

  /** What the script returns for one bucket: the count, the time to live and whether to notify. */
  datatype HitResult = HitResult(count: nat, ttl: int, notify: bool)

  /** A claim expires with its counter. */
  predicate Sound(counters: map<Key, Counter>, claims: map<Key, int>, at: int) {
    forall k :: k in claims && claims[k] > at ==> k in counters && counters[k].expireAt == Some(claims[k])
  }

  predicate AllExpire(counters: map<Key, Counter>) {
    forall k :: k in counters ==> counters[k].expireAt.Some?
  }

  /** When the window of a counter ends: one left without expiry gets a whole window at its next hit. */
  function WindowEnd(counter: Counter, windowMs: int, at: int): int {
    if counter.expireAt.Some? then counter.expireAt.value else at + windowMs
  }

  /** The buckets in memory that would say the same. */
  function ViewOf(counters: map<Key, Counter>, claims: map<Key, int>, windowMs: int, at: int): Buckets {
    map k | k in counters && Alive(counters[k].expireAt, at) ::
      Bucket(counters[k].count, WindowEnd(counters[k], windowMs, at), k in claims && claims[k] > at)
  }

  predicate Claimed(claims: map<Key, int>, key: Key, at: int) {
    key in claims && claims[key] > at
  }

  /** Writing one counter, and perhaps its claim, changes one bucket of the view. */
  lemma WrittenView(counters: map<Key, Counter>, claims: map<Key, int>, key: Key, counter: Counter, claim: bool,
                    windowMs: int, at: int)
    requires Sound(counters, claims, at) && counter.expireAt.Some? && counter.expireAt.value > at
    requires Claimed(claims, key, at) ==> !claim && counters[key].expireAt == counter.expireAt
    ensures var raised := counters[key := counter];
            var claimed := if claim then claims[key := counter.expireAt.value] else claims;
            && Sound(raised, claimed, at)
            && ViewOf(raised, claimed, windowMs, at) == ViewOf(counters, claims, windowMs, at)[
                 key := Bucket(counter.count, counter.expireAt.value, claim || Claimed(claims, key, at))]
  {
  }

  /** The counter the script leaves: one more, or one in a new window. */
  function CounterAfter(counters: map<Key, Counter>, key: Key, windowMs: int, at: int): Counter {
    if key !in counters || !Alive(counters[key].expireAt, at) then Counter(1, Some(at + windowMs))
    else Counter(counters[key].count + 1,
                 if counters[key].expireAt.Some? then counters[key].expireAt else Some(at + windowMs))
  }

  /** That counter is the hit bucket, and the claim is due exactly when the bucket notifies. */
  lemma CounterIsHit(config: Config, counters: map<Key, Counter>, claims: map<Key, int>, key: Key, at: int)
    requires Sound(counters, claims, at) && config.windowMs > 0
    ensures var view := ViewOf(counters, claims, config.windowMs, at);
            var counter := CounterAfter(counters, key, config.windowMs, at);
            var hit, due := Hit(config, view, key, at), AnswerOf(config, view, key, at).shouldNotify;
            && counter == Counter(hit.count, Some(hit.resetAt)) && hit.resetAt > at
            && (due <==> counter.count > LimitOf(config, key) && !Claimed(claims, key, at))
            && (hit.notified <==> due || Claimed(claims, key, at))
            && (Claimed(claims, key, at) ==> counters[key].expireAt == counter.expireAt)
  {
  }

  /** As time passes nothing but expiry happens to the view. */
  lemma ViewLater(counters: map<Key, Counter>, claims: map<Key, int>, windowMs: int, at: int, later: int)
    requires Sound(counters, claims, at) && AllExpire(counters) && at <= later
    ensures Sound(counters, claims, later)
    ensures ViewOf(counters, claims, windowMs, later) == Live(ViewOf(counters, claims, windowMs, at), later)
  {
  }

  class RedisRateLimiter {
    const config: Config
    var counters: map<Key, Counter>
    /** The expiry of each key ":notified". */
    var claims: map<Key, int>

    constructor (config: Config)
      requires config.windowMs > 0
      ensures this.config == config && counters == map[] && claims == map[] && forall at :: Valid(at)
    {
      this.config := config;
      counters, claims := map[], map[];
    }

    ghost predicate Valid(at: int)
      reads this
    {
      config.windowMs > 0 && Sound(counters, claims, at)
    }

    /** The counters that were hit expire, and so does every other that did. */
    predicate Repaired(before: map<Key, Counter>, hit: seq<Key>)
      reads this
    {
      && before.Keys <= counters.Keys
      && (forall k :: k in hit ==> k in counters && counters[k].expireAt.Some?)
      && (forall k :: k in counters && k !in hit ==> k in before && counters[k] == before[k])
    }

    ghost function View(at: int): Buckets
      reads this
    {
      ViewOf(counters, claims, config.windowMs, at)
    }

    /** INCR; the key counts from one when it is gone. */
    method Incr(key: Key, at: int) returns (count: nat)
      modifies this`counters
      ensures var alive := key in old(counters) && Alive(old(counters)[key].expireAt, at);
              && count == (if alive then old(counters)[key].count + 1 else 1)
              && counters == old(counters)[key := Counter(count, if alive then old(counters)[key].expireAt else None)]
    {
      if key in counters && Alive(counters[key].expireAt, at) {
        count := counters[key].count + 1;
        counters := counters[key := counters[key].(count := count)];
      } else {
        count := 1;
        counters := counters[key := Counter(1, None)];
      }
    }

    method Pttl(key: Key, at: int) returns (ttl: int)
      ensures ttl == if key !in counters || !Alive(counters[key].expireAt, at) then -2
                     else if counters[key].expireAt.None? then -1 else counters[key].expireAt.value - at
    {
      if key !in counters || !Alive(counters[key].expireAt, at) { return -2; }
      return if counters[key].expireAt.None? then -1 else counters[key].expireAt.value - at;
    }

    /** SET key:notified 1 NX PX life. */
    method Claim(key: Key, life: nat, at: int) returns (claimed: bool)
      modifies this`claims
      ensures claimed == !(key in old(claims) && old(claims)[key] > at)
      ensures claims == if claimed then old(claims)[key := at + life] else old(claims)
    {
      claimed := !(key in claims && claims[key] > at);
      if claimed { claims := claims[key := at + life]; }
    }

    /** The script's hit: it opens a window for a counter that has none, new or left behind. */
    method HitScript(key: Key, limit: int, at: int) returns (r: HitResult)
      requires config.windowMs > 0
      modifies this`counters, this`claims
      ensures var counter := CounterAfter(old(counters), key, config.windowMs, at);
              && counters == old(counters)[key := counter] && Some(at + r.ttl) == counter.expireAt && r.ttl > 0
              && r.count == counter.count && r.notify == (r.count > limit && !Claimed(old(claims), key, at))
              && claims == if r.notify then old(claims)[key := at + r.ttl] else old(claims)
    {
      var count := Incr(key, at);
      var ttl := Pttl(key, at);
      if ttl < 0 {
        counters := counters[key := counters[key].(expireAt := Some(at + config.windowMs))];
        ttl := config.windowMs;
      }
      var notify := false;
      if count > limit {
        notify := Claim(key, Max(1, ttl), at);
      }
      return HitResult(count, ttl, notify);
    }

    /** The hit on buckets that the limiter in memory knows. */
    method HitBucket(key: Key, limit: int, at: int) returns (r: HitResult)
      requires limit == LimitOf(config, key) && Valid(at)
      modifies this`counters, this`claims
      ensures Valid(at) && View(at) == old(View(at))[key := Hit(config, old(View(at)), key, at)]
      ensures Answer(r.count <= limit, Max(0, limit - r.count), at + r.ttl, r.notify) ==
              AnswerOf(config, old(View(at)), key, at)
      ensures Repaired(old(counters), [key])
    {
      CounterIsHit(config, counters, claims, key, at);
      var counter := CounterAfter(counters, key, config.windowMs, at);
      WrittenView(counters, claims, key, counter, counter.count > limit && !Claimed(claims, key, at),
                  config.windowMs, at);
      r := HitScript(key, limit, at);
    }

    /** The whole script and the decoding of its result; at is the server's time and the caller's. */
    method Check(call: Call) returns (r: Answer)
      requires Valid(call.at)
      modifies this`counters, this`claims
      ensures Valid(call.at)
      ensures r == Decision(config, old(View(call.at)), call)
      ensures View(call.at) == After(config, old(View(call.at)), call)
      ensures Repaired(old(counters), Checked(config, old(View(call.at)), call))
    {
      if !config.enabled { return Unrestricted(call.at); }
      var keys := BucketKeys(call.profile, call.source);
      if keys.None? { return Unidentified(call.at); }
      ghost var was := View(call.at);
      assert Live(was, call.at) == was;
      AfterHits(config, was, call);
      var result := HitBucket(keys.value[0], config.maxRequests, call.at);
      var limit := config.maxRequests;
      if result.count <= limit && |keys.value| > 1 {
        var group := HitBucket(keys.value[1], GroupLimit(config), call.at);
        if group.count > GroupLimit(config) {
          result, limit := group, GroupLimit(config);
        }
      }
      return Answer(result.count <= limit, Max(0, limit - result.count), call.at + result.ttl, result.notify);
    }
  }

  /** A check sees the buckets only through the live ones: the limiter in memory and the view decide alike. */
  lemma DecidesOnLiveBuckets(config: Config, memory: Buckets, view: Buckets, call: Call)
    requires Live(memory, call.at) == Live(view, call.at)
    ensures Decision(config, memory, call) == Decision(config, view, call)
    ensures forall later :: later >= call.at ==>
              Live(After(config, memory, call), later) == Live(After(config, view, call), later)
  {
    if Checked(config, memory, call) == [] {
      forall later | later >= call.at
        ensures Live(memory, later) == Live(view, later)
      {
        assert Live(memory, later) == Live(Live(memory, call.at), later);
        assert Live(view, later) == Live(Live(view, call.at), later);
      }
    }
  }

  /** What the Redis limiter holds after a run: before each check, what expired is gone. */
  function ViewsAfter(config: Config, calls: seq<Call>): Buckets {
    if calls == [] then map[]
    else
      var call := calls[|calls| - 1];
      After(config, Live(ViewsAfter(config, calls[..|calls| - 1]), call.at), call)
  }

  /** Over any run on a clock that does not go back, both limiters give every caller the same answer. */
  lemma {:induction false} SameAnswers(config: Config, calls: seq<Call>, next: Call)
    requires Monotone(calls + [next])
    ensures Live(ViewsAfter(config, calls), next.at) == Live(BucketsAfter(config, calls), next.at)
    ensures Decision(config, Live(ViewsAfter(config, calls), next.at), next) ==
            Decision(config, BucketsAfter(config, calls), next)
    decreases |calls|
  {
    if calls != [] {
      var front, call := calls[..|calls| - 1], calls[|calls| - 1];
      assert forall i :: 0 <= i < |calls| ==> (calls + [next])[i] == calls[i];
      assert front + [call] == calls;
      SameAnswers(config, front, call);
      assert (calls + [next])[|calls| - 1].at <= (calls + [next])[|calls|].at;
      LiveTwice(ViewsAfter(config, front), call.at, call.at);
      DecidesOnLiveBuckets(config, BucketsAfter(config, front), Live(ViewsAfter(config, front), call.at), call);
    }
    LiveTwice(ViewsAfter(config, calls), next.at, next.at);
    DecidesOnLiveBuckets(config, BucketsAfter(config, calls), Live(ViewsAfter(config, calls), next.at), next);
  }

  lemma LiveTwice(buckets: Buckets, at: int, later: int)
    requires at <= later
    ensures Live(Live(buckets, at), later) == Live(buckets, later)
  {
  }
}
