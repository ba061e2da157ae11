/**
 * The two-bucket rate limiter, src/rate-limit.ts: fixed windows that open at the first hit, a
 * requester bucket before a group bucket, and one notification a window.
 */
module RateLimit {
  import opened Basics

  type Name = nat

  datatype LineSource = User(userId: Option<Name>)
                      | Group(groupId: Option<Name>, member: Option<Name>)
                      | Room(roomId: Option<Name>, member: Option<Name>)

  datatype Key = UserKey(profile: Name, user: Name)
               | ChatKey(profile: Name, room: bool, chat: Name)
               | RequesterKey(profile: Name, room: bool, chat: Name, requester: Option<Name>)

  datatype Config = Config(enabled: bool, windowMs: int, maxRequests: int, groupMaxRequests: Option<int>)

  datatype Bucket = Bucket(count: nat, resetAt: int, notified: bool)

  type Buckets = map<Key, Bucket>

  datatype Answer = Answer(allowed: bool, remaining: int, resetAt: int, shouldNotify: bool)

  const MAX_SAFE_INTEGER: int := 9007199254740991

  function GroupLimit(config: Config): int {
    if config.groupMaxRequests.Some? then config.groupMaxRequests.value else Max(100, config.maxRequests)
  }

  function BucketKeys(profile: Name, source: LineSource): Option<seq<Key>> {
    match source
    case User(user) => if user.Some? then Some([UserKey(profile, user.value)]) else None
    case Group(chat, member) =>
      if chat.None? then None
      else Some([RequesterKey(profile, false, chat.value, member), ChatKey(profile, false, chat.value)])
    case Room(chat, member) =>
      if chat.None? then None
      else Some([RequesterKey(profile, true, chat.value, member), ChatKey(profile, true, chat.value)])
  }

  function LimitOf(config: Config, key: Key): int {
    if key.ChatKey? then GroupLimit(config) else config.maxRequests
  }

  function Unrestricted(at: int): Answer {
    Answer(true, MAX_SAFE_INTEGER, at, false)
  }

  function Unidentified(at: int): Answer {
    Answer(false, 0, at, false)
  }

  // ---- One check, as a function of the buckets ----

  function Live(buckets: Buckets, at: int): Buckets {
    map key | key in buckets && buckets[key].resetAt > at :: buckets[key]
  }

  /** The bucket a hit leaves behind. */
  function Hit(config: Config, buckets: Buckets, key: Key, at: int): Bucket {
    var prior := if key in buckets then buckets[key] else Bucket(0, at + config.windowMs, false);
    Bucket(prior.count + 1, prior.resetAt, prior.notified || prior.count + 1 > LimitOf(config, key))
  }

  function AnswerOf(config: Config, buckets: Buckets, key: Key, at: int): Answer {
    var hit := Hit(config, buckets, key, at);
    var limit := LimitOf(config, key);
    Answer(hit.count <= limit, Max(0, limit - hit.count), hit.resetAt,
           hit.count > limit && !(key in buckets && buckets[key].notified))
  }

  /** The keys a check hits, in order: a refused requester stops before the group. */
  function HitKeys(config: Config, buckets: Buckets, keys: seq<Key>, at: int): seq<Key> {
    if |keys| < 2 || !AnswerOf(config, buckets, keys[0], at).allowed then keys[..Min(1, |keys|)] else keys[..2]
  }

  datatype Call = Call(at: int, profile: Name, source: LineSource)

  function Checked(config: Config, buckets: Buckets, call: Call): seq<Key> {
    var keys := BucketKeys(call.profile, call.source);
    if !config.enabled || keys.None? then []
    else HitKeys(config, Live(buckets, call.at), keys.value, call.at)
  }

  function After(config: Config, buckets: Buckets, call: Call): Buckets {
    var hit := Checked(config, buckets, call);
    if hit == [] then buckets
    else
      var live := Live(buckets, call.at);
      map key | key in live.Keys + (set k | k in hit) ::
        if key in hit then Hit(config, live, key, call.at) else live[key]
  }

  /** The answer of the last bucket hit, unless that one admits the call. */
  function Decision(config: Config, buckets: Buckets, call: Call): Answer {
    var hit := Checked(config, buckets, call);
    var live := Live(buckets, call.at);
    if !config.enabled then Unrestricted(call.at)
    else if hit == [] then Unidentified(call.at)
    else
      var last := AnswerOf(config, live, hit[|hit| - 1], call.at);
      if last.allowed then AnswerOf(config, live, hit[0], call.at) else last
  }

  /** Hitting the requester, and then perhaps the group, is what After says. */
  lemma AfterHits(config: Config, buckets: Buckets, call: Call)
    requires config.enabled && BucketKeys(call.profile, call.source).Some?
    ensures var keys := BucketKeys(call.profile, call.source).value;
            var live := Live(buckets, call.at);
            var once := live[keys[0] := Hit(config, live, keys[0], call.at)];
            var next := After(config, buckets, call);
            if |keys| < 2 || !AnswerOf(config, live, keys[0], call.at).allowed
            then Checked(config, buckets, call) == [keys[0]] && next == once
            else Checked(config, buckets, call) == keys && keys[1] != keys[0] &&
                 next == once[keys[1] := Hit(config, once, keys[1], call.at)]
  {
  }

  // ---- The limiter in memory ----

  class InMemoryRateLimiter {
    const config: Config
    var buckets: Buckets

    constructor (config: Config)
      ensures this.config == config && buckets == map[]
    {
      this.config := config;
      buckets := map[];
    }

    method HitBucket(key: Key, limit: int, at: int) returns (r: Answer)
      requires limit == LimitOf(config, key)
      modifies this`buckets
      ensures r == AnswerOf(config, old(buckets), key, at)
      ensures buckets == old(buckets)[key := Hit(config, old(buckets), key, at)]
    {
      var bucket := if key in buckets then buckets[key] else Bucket(0, at + config.windowMs, false);
      bucket := bucket.(count := bucket.count + 1);
      var allowed := bucket.count <= limit;
      var shouldNotify := !allowed && !bucket.notified;
      if shouldNotify { bucket := bucket.(notified := true); }
      buckets := buckets[key := bucket];
      return Answer(allowed, Max(0, limit - bucket.count), bucket.resetAt, shouldNotify);
    }

    /** Idle buckets are dropped so that the map stays small. */
    method Prune(at: int)
      modifies this`buckets
      ensures buckets == Live(old(buckets), at)
    {
      var todo := buckets.Keys;
      while todo != {}
        invariant todo <= old(buckets).Keys
        invariant buckets == map k | k in old(buckets) && (k in todo || old(buckets)[k].resetAt > at) :: old(buckets)[k]
        decreases todo
      {
        var key :| key in todo;
        todo := todo - {key};
        if buckets[key].resetAt <= at { buckets := buckets - {key}; }
      }
    }

    method Check(call: Call) returns (r: Answer)
      modifies this`buckets
      ensures r == Decision(config, old(buckets), call)
      ensures buckets == After(config, old(buckets), call)
    {
      if !config.enabled { return Unrestricted(call.at); }
      var keys := BucketKeys(call.profile, call.source);
      if keys.None? { return Unidentified(call.at); }
      ghost var was := buckets;
      Prune(call.at);
      AfterHits(config, was, call);
      var requester := HitBucket(keys.value[0], config.maxRequests, call.at);
      if !requester.allowed || |keys.value| < 2 { return requester; }
      var group := HitBucket(keys.value[1], GroupLimit(config), call.at);
      return if group.allowed then requester else group;
    }
  }
}
