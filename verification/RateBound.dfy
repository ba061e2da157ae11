/**
 * What the limiter promises over a whole run: how many checks any interval of one window length can
 * admit, and how often a window notifies.
 */
module RateBound {
  import opened Basics
  import opened RateLimit

  function BucketsAfter(config: Config, calls: seq<Call>): Buckets {
    if calls == [] then map[]
    else After(config, BucketsAfter(config, calls[..|calls| - 1]), calls[|calls| - 1])
  }

  predicate Monotone(calls: seq<Call>) {
    forall i, j :: 0 <= i <= j < |calls| ==> calls[i].at <= calls[j].at
  }

  function Before(config: Config, calls: seq<Call>, i: nat): Buckets
    requires i <= |calls|
  {
    BucketsAfter(config, calls[..i])
  }

  /** Check i of the run hits the bucket of this key. */
  predicate Hits(config: Config, calls: seq<Call>, i: nat, key: Key) {
    i < |calls| && key in Checked(config, Before(config, calls, i), calls[i])
  }

  function AnswerAt(config: Config, calls: seq<Call>, i: nat): Answer
    requires i < |calls|
  {
    Decision(config, Before(config, calls, i), calls[i])
  }

  /** The bucket a hit leaves behind. */
  function BucketAt(config: Config, calls: seq<Call>, i: nat, key: Key): Bucket
    requires i < |calls|
  {
    Hit(config, Live(Before(config, calls, i), calls[i].at), key, calls[i].at)
  }

  /** An admitted check that used up quota of this key. */
  predicate Admitted(config: Config, calls: seq<Call>, i: nat, key: Key) {
    Hits(config, calls, i, key) && AnswerAt(config, calls, i).allowed
  }

  function AdmittedIn(config: Config, calls: seq<Call>, key: Key, from: int, to: int): set<nat> {
    set i | 0 <= i < |calls| && from <= calls[i].at < to && Admitted(config, calls, i, key)
  }

  // ---- One step ----

  lemma StepOf(config: Config, buckets: Buckets, call: Call, key: Key)
    ensures var next := After(config, buckets, call);
            var live := Live(buckets, call.at);
            && (key in Checked(config, buckets, call) ==> key in next && next[key] == Hit(config, live, key, call.at))
            && (key !in Checked(config, buckets, call) && key in next ==> key in buckets && next[key] == buckets[key])
            && (key in live ==> key in next)
  {
  }

  /** An admitted check is within the limit of every key it hit. */
  lemma AdmittedWithinLimit(config: Config, buckets: Buckets, call: Call, key: Key)
    requires key in Checked(config, buckets, call) && Decision(config, buckets, call).allowed
    ensures Hit(config, Live(buckets, call.at), key, call.at).count <= LimitOf(config, key)
  {
    var hit := Checked(config, buckets, call);
    assert hit == BucketKeys(call.profile, call.source).value[..|hit|];
    if |hit| == 2 {
      assert AnswerOf(config, Live(buckets, call.at), hit[0], call.at).allowed;
    }
  }

  lemma {:induction false} NextBuckets(config: Config, calls: seq<Call>, i: nat)
    requires i < |calls|
    ensures Before(config, calls, i + 1) == After(config, Before(config, calls, i), calls[i])
  {
    assert calls[..i + 1][..i] == calls[..i];
  }

  // ---- The window of a hit ----

  /** Once a hit has opened or joined a window, a later bucket is that window or one a full length on. */
  predicate SinceHit(config: Config, buckets: Buckets, key: Key, bucket: Bucket, at: int) {
    || (key in buckets && buckets[key].resetAt == bucket.resetAt && buckets[key].count >= bucket.count)
    || (at >= bucket.resetAt && (key in buckets ==> buckets[key].resetAt >= bucket.resetAt + config.windowMs))
  }

  lemma SinceHitStep(config: Config, buckets: Buckets, call: Call, key: Key, bucket: Bucket, at: int)
    requires SinceHit(config, buckets, key, bucket, at) && at <= call.at
    ensures SinceHit(config, After(config, buckets, call), key, bucket, call.at)
    ensures key in Checked(config, buckets, call) ==>
              var next := Hit(config, Live(buckets, call.at), key, call.at);
              (next.resetAt == bucket.resetAt && next.count > bucket.count) ||
              next.resetAt >= bucket.resetAt + config.windowMs
  {
    StepOf(config, buckets, call, key);
  }

  /** The bucket of an earlier hit, as check j - 1 leaves it. */
  predicate SinceAt(config: Config, calls: seq<Call>, key: Key, bucket: Bucket, j: nat)
    requires 0 < j <= |calls|
  {
    SinceHit(config, Before(config, calls, j), key, bucket, calls[j - 1].at)
  }

  lemma SinceItself(config: Config, calls: seq<Call>, key: Key, i: nat)
    requires Hits(config, calls, i, key)
    ensures SinceAt(config, calls, key, BucketAt(config, calls, i, key), i + 1)
  {
    NextBuckets(config, calls, i);
    StepOf(config, Before(config, calls, i), calls[i], key);
  }

  lemma SinceNext(config: Config, calls: seq<Call>, key: Key, bucket: Bucket, j: nat)
    requires 0 < j < |calls| && SinceAt(config, calls, key, bucket, j) && calls[j - 1].at <= calls[j].at
    ensures SinceAt(config, calls, key, bucket, j + 1)
  {
    NextBuckets(config, calls, j);
    SinceHitStep(config, Before(config, calls, j), calls[j], key, bucket, calls[j - 1].at);
  }

  lemma {:induction false} SinceRun(config: Config, calls: seq<Call>, key: Key, bucket: Bucket, i: nat, j: nat)
    requires Monotone(calls) && 0 < i <= j <= |calls| && SinceAt(config, calls, key, bucket, i)
    ensures SinceAt(config, calls, key, bucket, j)
    decreases j
  {
    if i < j {
      SinceRun(config, calls, key, bucket, i, j - 1);
      SinceNext(config, calls, key, bucket, j - 1);
    }
  }

  lemma SinceHitRun(config: Config, calls: seq<Call>, key: Key, i: nat, j: nat)
    requires Monotone(calls) && Hits(config, calls, i, key) && i < j <= |calls|
    ensures SinceAt(config, calls, key, BucketAt(config, calls, i, key), j)
  {
    SinceItself(config, calls, key, i);
    SinceRun(config, calls, key, BucketAt(config, calls, i, key), i + 1, j);
  }

  /** Two hits of one key share a window and differ in count, or their windows are a full length apart. */
  lemma TwoHits(config: Config, calls: seq<Call>, key: Key, i: nat, j: nat)
    requires Monotone(calls) && Hits(config, calls, i, key) && Hits(config, calls, j, key) && i < j
    ensures var a, b := BucketAt(config, calls, i, key), BucketAt(config, calls, j, key);
            (b.resetAt == a.resetAt && b.count > a.count) || b.resetAt >= a.resetAt + config.windowMs
  {
    SinceHitRun(config, calls, key, i, j);
    SinceHitStep(config, Before(config, calls, j), calls[j], key, BucketAt(config, calls, i, key), calls[j - 1].at);
  }

  predicate Started(config: Config, buckets: Buckets, at: int) {
    forall key :: key in buckets ==> buckets[key].count >= 1 && buckets[key].resetAt <= at + config.windowMs
  }

  lemma {:induction false} RunStarted(config: Config, calls: seq<Call>, i: nat)
    requires Monotone(calls) && i <= |calls|
    ensures i < |calls| ==> Started(config, Before(config, calls, i), calls[i].at)
    decreases i
  {
    if 0 < i < |calls| {
      RunStarted(config, calls, i - 1);
      NextBuckets(config, calls, i - 1);
      forall key | key in Before(config, calls, i)
        ensures Before(config, calls, i)[key].count >= 1
        ensures Before(config, calls, i)[key].resetAt <= calls[i].at + config.windowMs
      {
        StepOf(config, Before(config, calls, i - 1), calls[i - 1], key);
      }
    }
  }

  /** A hit falls inside its window; the first of a window is the instant the window starts. */
  lemma HitInWindow(config: Config, calls: seq<Call>, key: Key, i: nat)
    requires Monotone(calls) && Hits(config, calls, i, key) && config.windowMs > 0
    ensures var b := BucketAt(config, calls, i, key);
            && 1 <= b.count
            && b.resetAt - config.windowMs <= calls[i].at < b.resetAt
            && (b.count == 1 ==> calls[i].at == b.resetAt - config.windowMs)
  {
    RunStarted(config, calls, i);
  }

  // ---- Counting ----

  /** Indices that carry distinct values from low up to high: no more than there are values. */
  lemma {:induction false} FewIndices(indices: set<nat>, value: map<nat, int>, low: int, high: int)
    requires forall i :: i in indices ==> i in value && low <= value[i] < high
    requires forall i, j :: i in indices && j in indices && i < j ==> value[i] != value[j]
    ensures |indices| <= Max(0, high - low)
    decreases Max(0, high - low)
  {
    if i :| i in indices {
      if k :| k in indices && value[k] == high - 1 {
        assert forall i :: i in indices - {k} ==> value[i] < high - 1;
        FewIndices(indices - {k}, value, low, high - 1);
      } else {
        FewIndices(indices, value, low, high - 1);
      }
    }
  }

  /** An admitted hit, from the low-th of its window on, whose window ends in this range. */
  predicate AdmittedLate(config: Config, calls: seq<Call>, key: Key, i: nat, low: int, from: int) {
    && Admitted(config, calls, i, key)
    && from <= BucketAt(config, calls, i, key).resetAt < from + config.windowMs
    && low <= BucketAt(config, calls, i, key).count
  }

  /** Admitted checks whose windows end less than a window length apart share one window. */
  lemma OneWindow(config: Config, calls: seq<Call>, key: Key, indices: set<nat>, low: int, from: int)
    requires Monotone(calls) && config.windowMs > 0
    requires forall i :: i in indices ==> AdmittedLate(config, calls, key, i, low, from)
    ensures |indices| <= Max(0, LimitOf(config, key) + 1 - low)
  {
    var value := map i | i in indices && i < |calls| :: BucketAt(config, calls, i, key).count;
    forall i | i in indices
      ensures i in value && low <= value[i] < LimitOf(config, key) + 1
    {
      assert AdmittedLate(config, calls, key, i, low, from);
      AdmittedWithinLimit(config, Before(config, calls, i), calls[i], key);
    }
    forall i, j | i in indices && j in indices && i < j
      ensures value[i] != value[j]
    {
      assert AdmittedLate(config, calls, key, i, low, from) && AdmittedLate(config, calls, key, j, low, from);
      TwoHits(config, calls, key, i, j);
    }
    FewIndices(indices, value, low, LimitOf(config, key) + 1);
  }

  /** A check admitted in the interval joins a window open before it, or is in one that opened inside it. */
  lemma EarlyOrLate(config: Config, calls: seq<Call>, key: Key, i: nat, from: int)
    requires Monotone(calls) && config.windowMs > 0
    requires Admitted(config, calls, i, key) && from <= calls[i].at < from + config.windowMs
    ensures AdmittedLate(config, calls, key, i, 2, from) ||
            AdmittedLate(config, calls, key, i, 1, from + config.windowMs)
  {
    HitInWindow(config, calls, key, i);
  }

  /**
   * In any half-open interval of one window length, whoever calls and however the windows fall, a
   * key admits fewer than twice its limit.
   */
  lemma RateBoundHolds(config: Config, calls: seq<Call>, key: Key, from: int)
    requires config.enabled && Monotone(calls)
    ensures |AdmittedIn(config, calls, key, from, from + config.windowMs)| <= Max(0, 2 * LimitOf(config, key) - 1)
  {
    if config.windowMs > 0 {
      var all := AdmittedIn(config, calls, key, from, from + config.windowMs);
      forall i | i in all
        ensures AdmittedLate(config, calls, key, i, 2, from) ||
                AdmittedLate(config, calls, key, i, 1, from + config.windowMs)
      {
        EarlyOrLate(config, calls, key, i, from);
      }
      TwoWindows(config, calls, key, all, from);
    }
  }

  lemma TwoWindows(config: Config, calls: seq<Call>, key: Key, all: set<nat>, from: int)
    requires Monotone(calls) && config.windowMs > 0
    requires forall i :: i in all ==>
      AdmittedLate(config, calls, key, i, 2, from) || AdmittedLate(config, calls, key, i, 1, from + config.windowMs)
    ensures |all| <= Max(0, 2 * LimitOf(config, key) - 1)
  {
    var early := set i | i in all && AdmittedLate(config, calls, key, i, 2, from);
    OneWindow(config, calls, key, early, 2, from);
    OneWindow(config, calls, key, all - early, 1, from + config.windowMs);
    SplitSize(all, early);
  }

  lemma SplitSize(all: set<nat>, some: set<nat>)
    requires some <= all
    ensures |all| == |some| + |all - some|
  {
    assert all == some + (all - some);
  }

  // ---- What a bucket counts ----

  /** The hits of a key, before check j, whose window ends at resetAt. */
  function WindowHits(config: Config, calls: seq<Call>, key: Key, j: nat, resetAt: int): set<nat>
    requires j <= |calls|
  {
    set i | 0 <= i < j && Hits(config, calls, i, key) && BucketAt(config, calls, i, key).resetAt == resetAt
  }

  lemma NewWindow(config: Config, calls: seq<Call>, key: Key, j: nat)
    requires Monotone(calls) && j < |calls| && config.windowMs > 0
    requires key !in Live(Before(config, calls, j), calls[j].at)
    ensures WindowHits(config, calls, key, j, calls[j].at + config.windowMs) == {}
  {
    forall i | 0 <= i < j && Hits(config, calls, i, key)
      ensures BucketAt(config, calls, i, key).resetAt < calls[j].at + config.windowMs
    {
      SinceHitRun(config, calls, key, i, j);
    }
  }

  lemma WindowHitsStep(config: Config, calls: seq<Call>, key: Key, j: nat, resetAt: int)
    requires j < |calls|
    ensures WindowHits(config, calls, key, j + 1, resetAt) == WindowHits(config, calls, key, j, resetAt) +
              if Hits(config, calls, j, key) && BucketAt(config, calls, j, key).resetAt == resetAt then {j} else {}
  {
  }

  lemma {:induction false} BucketCountsHits(config: Config, calls: seq<Call>, key: Key, j: nat)
    requires Monotone(calls) && j <= |calls| && config.windowMs > 0
    ensures var b := Before(config, calls, j);
            key in b ==> b[key].count == |WindowHits(config, calls, key, j, b[key].resetAt)|
    decreases j
  {
    if j > 0 {
      var i := j - 1;
      BucketCountsHits(config, calls, key, i);
      NextBuckets(config, calls, i);
      StepOf(config, Before(config, calls, i), calls[i], key);
      if key in Before(config, calls, j) {
        WindowHitsStep(config, calls, key, i, Before(config, calls, j)[key].resetAt);
        if key !in Live(Before(config, calls, i), calls[i].at) {
          NewWindow(config, calls, key, i);
        }
      }
    }
  }

  /** The hits so far of the window that check i falls in, if that window is still open. */
  function OpenHits(config: Config, calls: seq<Call>, key: Key, i: nat): set<nat>
    requires i < |calls|
  {
    WindowHits(config, calls, key, i, BucketAt(config, calls, i, key).resetAt)
  }

  lemma HitCounts(config: Config, calls: seq<Call>, key: Key, i: nat)
    requires Monotone(calls) && i < |calls| && config.windowMs > 0
    ensures BucketAt(config, calls, i, key).count == |OpenHits(config, calls, key, i)| + 1
  {
    if key in Live(Before(config, calls, i), calls[i].at) {
      BucketCountsHits(config, calls, key, i);
    } else {
      NewWindow(config, calls, key, i);
    }
  }

  lemma AllowedIffWithin(config: Config, buckets: Buckets, call: Call)
    requires config.enabled
    ensures var keys := BucketKeys(call.profile, call.source);
            Decision(config, buckets, call).allowed <==>
            keys.Some? && forall key :: key in keys.value ==>
              Hit(config, Live(buckets, call.at), key, call.at).count <= LimitOf(config, key)
  {
    var keys := BucketKeys(call.profile, call.source);
    if keys.Some? {
      assert keys.value[0] in keys.value;
      assert |keys.value| == 2 ==> keys.value[1] in keys.value && keys.value[..2] == keys.value;
      assert keys.value[..1] == [keys.value[0]];
    }
  }

  /** A check is admitted exactly when every bucket it asks still has quota in its open window. */
  lemma AdmittedIffQuotaLeft(config: Config, calls: seq<Call>, i: nat)
    requires config.enabled && Monotone(calls) && i < |calls| && config.windowMs > 0
    ensures var keys := BucketKeys(calls[i].profile, calls[i].source);
            AnswerAt(config, calls, i).allowed <==>
            keys.Some? && forall key :: key in keys.value ==>
              |OpenHits(config, calls, key, i)| < LimitOf(config, key)
  {
    AllowedIffWithin(config, Before(config, calls, i), calls[i]);
    forall key
      ensures BucketAt(config, calls, i, key).count == |OpenHits(config, calls, key, i)| + 1
    {
      HitCounts(config, calls, key, i);
    }
  }

  /** A check refused at its requester bucket leaves the group's quota alone. */
  lemma RefusedRequesterSparesGroup(config: Config, buckets: Buckets, call: Call, group: Key)
    requires config.enabled && group.ChatKey? && BucketKeys(call.profile, call.source).Some?
    requires var requester := BucketKeys(call.profile, call.source).value[0];
             !AnswerOf(config, Live(buckets, call.at), requester, call.at).allowed
    ensures group !in Checked(config, buckets, call) && !Decision(config, buckets, call).allowed
    ensures Live(After(config, buckets, call), call.at).Keys * {group} == Live(buckets, call.at).Keys * {group}
    ensures group in Live(buckets, call.at) ==> After(config, buckets, call)[group] == buckets[group]
  {
    StepOf(config, buckets, call, group);
  }

  // ---- Notifications ----

  predicate NotedRefusals(config: Config, buckets: Buckets) {
    forall key :: key in buckets ==> (buckets[key].notified <==> buckets[key].count > LimitOf(config, key)) &&
                                     buckets[key].count >= 1
  }

  lemma {:induction false} RefusalsNoted(config: Config, calls: seq<Call>, i: nat)
    requires i <= |calls|
    ensures NotedRefusals(config, Before(config, calls, i))
    decreases i
  {
    if i > 0 {
      RefusalsNoted(config, calls, i - 1);
      NextBuckets(config, calls, i - 1);
      forall key | key in Before(config, calls, i)
        ensures var b := Before(config, calls, i)[key];
                (b.notified <==> b.count > LimitOf(config, key)) && b.count >= 1
      {
        StepOf(config, Before(config, calls, i - 1), calls[i - 1], key);
      }
    }
  }

  predicate Notifies(config: Config, calls: seq<Call>, i: nat, key: Key) {
    && Hits(config, calls, i, key)
    && AnswerOf(config, Live(Before(config, calls, i), calls[i].at), key, calls[i].at).shouldNotify
  }

  /** The caller is told to notify exactly when some bucket it hit notifies. */
  lemma AnswerNotifies(config: Config, calls: seq<Call>, i: nat)
    requires i < |calls|
    ensures AnswerAt(config, calls, i).shouldNotify <==> exists key :: Notifies(config, calls, i, key)
  {
    var hit := Checked(config, Before(config, calls, i), calls[i]);
    var live := Live(Before(config, calls, i), calls[i].at);
    if AnswerAt(config, calls, i).shouldNotify {
      assert Notifies(config, calls, i, hit[|hit| - 1]) || Notifies(config, calls, i, hit[0]);
    }
    if key :| Notifies(config, calls, i, key) {
      assert |hit| == 2 ==> AnswerOf(config, live, hit[0], calls[i].at).allowed;
    }
  }

  /** A window notifies at its first refusal and at no other hit. */
  lemma NotifiesAtFirstRefusal(config: Config, calls: seq<Call>, i: nat, key: Key)
    requires Hits(config, calls, i, key)
    ensures Notifies(config, calls, i, key) <==>
            BucketAt(config, calls, i, key).count == Max(0, LimitOf(config, key)) + 1
  {
    RefusalsNoted(config, calls, i);
  }

  lemma OneNotificationAWindow(config: Config, calls: seq<Call>, key: Key, i: nat, j: nat)
    requires Monotone(calls) && i < j && Notifies(config, calls, i, key) && Notifies(config, calls, j, key)
    ensures BucketAt(config, calls, j, key).resetAt >= BucketAt(config, calls, i, key).resetAt + config.windowMs
  {
    NotifiesAtFirstRefusal(config, calls, i, key);
    NotifiesAtFirstRefusal(config, calls, j, key);
    TwoHits(config, calls, key, i, j);
  }

  // ---- The bound is reached ----

  /** One user, or a group or room whose members take turns. */
  datatype Crowd = OneUser | Chat(room: bool)

  function BurstSource(who: Crowd, i: nat): LineSource {
    if who.OneUser? then User(Some(0)) else if who.room then Room(Some(0), Some(i)) else Group(Some(0), Some(i))
  }

  function BurstKey(who: Crowd): Key {
    if who.OneUser? then UserKey(0, 0) else ChatKey(0, who.room, 0)
  }

  function Member(room: bool, i: nat): Key {
    RequesterKey(0, room, 0, Some(i))
  }

  /** One check at the start, the rest of a window's quota at its last instant, the next quota right after. */
  function BurstAt(limit: nat, windowMs: nat, i: nat): int {
    if i == 0 then 0 else if i < limit then windowMs - 1 else windowMs
  }

  function Burst(limit: nat, windowMs: nat, who: Crowd): seq<Call> {
    seq(2 * limit, i requires 0 <= i => Call(BurstAt(limit, windowMs, i), 0, BurstSource(who, i)))
  }

  /** Each member of the group has quota of its own. */
  predicate CanBurst(config: Config, limit: nat, who: Crowd) {
    && config.enabled && config.windowMs >= 2
    && limit >= 1 && LimitOf(config, BurstKey(who)) == limit && config.maxRequests >= 1
  }

  /** Before check i the members from i on have not been seen. */
  ghost predicate MembersUnseen(b: Buckets, room: bool, i: nat) {
    forall j: nat :: j >= i ==> Member(room, j) !in b
  }

  lemma BurstHits(config: Config, b: Buckets, limit: nat, who: Crowd, i: nat)
    requires CanBurst(config, limit, who) && i < 2 * limit && (who.Chat? ==> Member(who.room, i) !in b)
    ensures var call := Burst(limit, config.windowMs, who)[i];
            Checked(config, b, call) == if who.Chat? then [Member(who.room, i), BurstKey(who)] else [BurstKey(who)]
  {
    var call := Burst(limit, config.windowMs, who)[i];
    if who.Chat? {
      assert AnswerOf(config, Live(b, call.at), Member(who.room, i), call.at).allowed;
      assert BucketKeys(0, call.source).value == [Member(who.room, i), BurstKey(who)];
    }
  }

  ghost predicate BurstState(config: Config, b: Buckets, limit: nat, who: Crowd, i: nat) {
    && (who.Chat? ==> MembersUnseen(b, who.room, i))
    && (BurstKey(who) in b <==> 0 < i)
    && (0 < i ==>
          && b[BurstKey(who)].resetAt == (if i <= limit then config.windowMs else 2 * config.windowMs)
          && b[BurstKey(who)].count == if i <= limit then i else i - limit)
  }

  lemma BurstStep(config: Config, b: Buckets, limit: nat, who: Crowd, i: nat)
    requires CanBurst(config, limit, who) && i < 2 * limit && BurstState(config, b, limit, who, i)
    ensures BurstState(config, After(config, b, Burst(limit, config.windowMs, who)[i]), limit, who, i + 1)
  {
    var call := Burst(limit, config.windowMs, who)[i];
    BurstHits(config, b, limit, who, i);
    StepOf(config, b, call, BurstKey(who));
    if who.Chat? {
      forall j: nat | j >= i + 1
        ensures Member(who.room, j) !in After(config, b, call)
      {
        StepOf(config, b, call, Member(who.room, j));
      }
    }
  }

  /** The run has reached check i of a burst. */
  ghost predicate BurstReached(config: Config, limit: nat, who: Crowd, i: nat)
    requires i <= 2 * limit && config.windowMs >= 0
  {
    BurstState(config, Before(config, Burst(limit, config.windowMs, who), i), limit, who, i)
  }

  lemma BurstNext(config: Config, limit: nat, who: Crowd, i: nat)
    requires CanBurst(config, limit, who) && i < 2 * limit && BurstReached(config, limit, who, i)
    ensures BurstReached(config, limit, who, i + 1)
  {
    var calls := Burst(limit, config.windowMs, who);
    BurstStep(config, Before(config, calls, i), limit, who, i);
    NextBuckets(config, calls, i);
  }

  lemma {:induction false} BurstBuckets(config: Config, limit: nat, who: Crowd, i: nat)
    requires CanBurst(config, limit, who) && i <= 2 * limit
    ensures BurstReached(config, limit, who, i)
    decreases i
  {
    if i == 0 {
      BurstBegins(config, limit, who);
    } else {
      BurstBuckets(config, limit, who, i - 1);
      BurstNext(config, limit, who, i - 1);
    }
  }

  lemma BurstBegins(config: Config, limit: nat, who: Crowd)
    requires config.windowMs >= 0
    ensures BurstReached(config, limit, who, 0)
  {
    var calls := Burst(limit, config.windowMs, who);
    assert calls[..0] == [] && Before(config, calls, 0) == map[];
  }

  function Range(low: nat, high: nat): (r: set<nat>)
    ensures forall i :: i in r <==> low <= i < high
    decreases high - low
  {
    if low < high then Range(low, high - 1) + {high - 1} else {}
  }

  lemma {:induction false} RangeSize(low: nat, high: nat)
    requires low <= high
    ensures |Range(low, high)| == high - low
    decreases high - low
  {
    if low < high {
      RangeSize(low, high - 1);
    }
  }

  lemma BurstTimes(limit: nat, windowMs: nat, who: Crowd, i: nat)
    requires windowMs >= 2 && limit >= 1 && i < 2 * limit
    ensures var calls := Burst(limit, windowMs, who);
            && |calls| == 2 * limit
            && (calls[i].at == 0 || windowMs - 1 <= calls[i].at < 2 * windowMs - 1)
            && (calls[i].at == 0 <==> i == 0)
            && forall j :: i <= j < |calls| ==> calls[i].at <= calls[j].at
  {
  }

  lemma BurstAdmits(config: Config, limit: nat, who: Crowd, i: nat)
    requires CanBurst(config, limit, who) && 0 < i < 2 * limit
    ensures Admitted(config, Burst(limit, config.windowMs, who), i, BurstKey(who))
  {
    var calls := Burst(limit, config.windowMs, who);
    var b := Before(config, calls, i);
    BurstBuckets(config, limit, who, i);
    BurstHits(config, b, limit, who, i);
    AllowedIffWithin(config, b, calls[i]);
    assert Hit(config, Live(b, calls[i].at), BurstKey(who), calls[i].at).count <= limit;
    assert who.Chat? ==> Hit(config, Live(b, calls[i].at), Member(who.room, i), calls[i].at).count == 1;
  }

  /**
   * For every positive limit, of a requester or of a group whose members have quota, and every window
   * of two milliseconds or more, some run admits 2 * limit - 1 within one window length.
   */
  lemma RateBoundIsTight(config: Config, limit: nat, who: Crowd)
    requires CanBurst(config, limit, who)
    ensures var calls := Burst(limit, config.windowMs, who);
            && Monotone(calls)
            && |AdmittedIn(config, calls, BurstKey(who), config.windowMs - 1, 2 * config.windowMs - 1)| ==
               2 * limit - 1
  {
    var calls := Burst(limit, config.windowMs, who);
    BurstMonotone(limit, config.windowMs, who);
    var admitted := AdmittedIn(config, calls, BurstKey(who), config.windowMs - 1, 2 * config.windowMs - 1);
    forall i: nat
      ensures i in admitted <==> 1 <= i < 2 * limit
    {
      if i < |calls| {
        BurstTimes(limit, config.windowMs, who, i);
      }
      if 0 < i < |calls| {
        BurstAdmits(config, limit, who, i);
      }
    }
    AllBut(admitted, 2 * limit);
  }

  lemma BurstMonotone(limit: nat, windowMs: nat, who: Crowd)
    requires windowMs >= 2 && limit >= 1
    ensures Monotone(Burst(limit, windowMs, who))
  {
    var calls := Burst(limit, windowMs, who);
    forall i, j | 0 <= i <= j < |calls|
      ensures calls[i].at <= calls[j].at
    {
      BurstTimes(limit, windowMs, who, i);
    }
  }

  /** The numbers below n, but for zero. */
  lemma AllBut(s: set<nat>, n: nat)
    requires n >= 1 && forall i: nat :: i in s <==> 1 <= i < n
    ensures |s| == n - 1
  {
    RangeSize(1, n);
    assert s == Range(1, n);
  }
}
