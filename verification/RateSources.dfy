/**
 * Whose quota a check uses up, src/rate-limit.ts: each user, each chat and each member of a chat has
 * a window of its own. The windows are computed here from the calls of that user, member or chat
 * alone, and the limiter is proved to answer by them.
 */
module RateSources {
  import opened Basics
  import opened RateLimit
  import opened RateBound
  import opened RateLimitRedis

  /** The call names the user or the chat it comes from. */
  predicate Identified(c: Call) {
    match c.source
    case User(user) => user.Some?
    case Group(chat, _) => chat.Some?
    case Room(chat, _) => chat.Some?
  }

  /** Both calls come from one profile and one group, or one profile and one room. */
  predicate SameChat(a: Call, b: Call) {
    && Identified(a) && a.profile == b.profile
    && match (a.source, b.source)
       case (Group(chat, _), Group(other, _)) => chat == other
       case (Room(chat, _), Room(other, _)) => chat == other
       case _ => false
  }

  /** One user, or one member of one chat; all members without a name are one. */
  predicate SameRequester(a: Call, b: Call) {
    if a.source.User? then Identified(a) && a.profile == b.profile && a.source == b.source
    else SameChat(a, b) && a.source.member == b.source.member
  }

  /** What a chat may send in a window, when the configuration does not say: a hundred, or more. */
  function ChatQuota(config: Config): int {
    match config.groupMaxRequests
    case Some(limit) => limit
    case None => Max(100, config.maxRequests)
  }

  // ---- The windows, from the calls alone ----

  datatype Window = Window(count: nat, resetAt: int)

  /** One more call counts in the open window, or opens one. */
  function Joined(config: Config, w: Option<Window>, at: int): Window {
    if w.Some? && w.value.resetAt > at then Window(w.value.count + 1, w.value.resetAt)
    else Window(1, at + config.windowMs)
  }

  /** The last window of c's requester: every call of the requester counts. */
  function RequesterWindow(config: Config, calls: seq<Call>, c: Call): Option<Window>
    decreases |calls|
  {
    if calls == [] then None
    else
      var earlier, last := calls[..|calls| - 1], calls[|calls| - 1];
      var w := RequesterWindow(config, earlier, c);
      if SameRequester(last, c) then Some(Joined(config, w, last.at)) else w
  }

  function RequesterJoined(config: Config, calls: seq<Call>, c: Call): Window {
    Joined(config, RequesterWindow(config, calls, c), c.at)
  }

  /** The last window of c's chat: every call counts whose requester had quota. */
  function ChatWindow(config: Config, calls: seq<Call>, c: Call): Option<Window>
    decreases |calls|
  {
    if calls == [] then None
    else
      var earlier, last := calls[..|calls| - 1], calls[|calls| - 1];
      var w := ChatWindow(config, earlier, c);
      if SameChat(last, c) && RequesterJoined(config, earlier, last).count <= config.maxRequests
      then Some(Joined(config, w, last.at)) else w
  }

  function ChatJoined(config: Config, calls: seq<Call>, c: Call): Window {
    Joined(config, ChatWindow(config, calls, c), c.at)
  }

  /** The answer by these windows; the flag that asks for a notification is RateBound's subject. */
  ghost predicate AnsweredByWindows(config: Config, calls: seq<Call>, c: Call, r: Answer) {
    var requester, chat := RequesterJoined(config, calls, c), ChatJoined(config, calls, c);
    if !Identified(c) then r == Answer(false, 0, c.at, false)
    else if requester.count > config.maxRequests then
      !r.allowed && r.remaining == 0 && r.resetAt == requester.resetAt
    else if !c.source.User? && chat.count > ChatQuota(config) then
      !r.allowed && r.remaining == 0 && r.resetAt == chat.resetAt
    else
      r.allowed && r.remaining == config.maxRequests - requester.count && r.resetAt == requester.resetAt
  }

  // ---- The buckets are these windows ----

  /** The open bucket of this key, if any, is this window. */
  predicate BucketIs(b: Buckets, key: Key, w: Option<Window>, at: int) {
    var live := Live(b, at);
    if w.Some? && w.value.resetAt > at
    then key in live && live[key].count == w.value.count && live[key].resetAt == w.value.resetAt
    else key !in live
  }

  lemma HitJoins(config: Config, b: Buckets, key: Key, w: Option<Window>, at: int)
    requires BucketIs(b, key, w, at)
    ensures var hit := Hit(config, Live(b, at), key, at);
            Window(hit.count, hit.resetAt) == Joined(config, w, at)
  {
  }

  lemma IdentifiedKeys(c: Call)
    ensures Identified(c) <==> BucketKeys(c.profile, c.source).Some?
    ensures Identified(c) ==>
              |BucketKeys(c.profile, c.source).value| == (if c.source.User? then 1 else 2)
  {
  }

  lemma RequesterKeys(a: Call, c: Call)
    requires Identified(a) && Identified(c)
    ensures var ks, ls := BucketKeys(a.profile, a.source).value, BucketKeys(c.profile, c.source).value;
            && (ls[0] in ks <==> SameRequester(a, c)) && (SameRequester(a, c) ==> ks[0] == ls[0])
            && (!c.source.User? ==> (ls[1] in ks <==> SameChat(a, c)) && ks[0] != ls[1])
            && (SameChat(a, c) ==> !a.source.User? && ks[1] == ls[1])
  {
  }

  /** Which buckets a call hits, in terms of whose window they are. */
  lemma HitsWindows(config: Config, b: Buckets, last: Call, c: Call, w: Option<Window>)
    requires config.enabled && Identified(c)
    requires Identified(last) ==> BucketIs(b, BucketKeys(last.profile, last.source).value[0], w, last.at)
    ensures var hit, ls := Checked(config, b, last), BucketKeys(c.profile, c.source).value;
            && (ls[0] in hit <==> SameRequester(last, c))
            && (!c.source.User? ==>
                  (ls[1] in hit <==> SameChat(last, c) && Joined(config, w, last.at).count <= config.maxRequests))
  {
    IdentifiedKeys(last);
    if Identified(last) {
      RequesterKeys(last, c);
      HitJoins(config, b, BucketKeys(last.profile, last.source).value[0], w, last.at);
    }
  }

  /** A hit carries the window on, and anything else leaves it as it is. */
  lemma BucketStep(config: Config, b: Buckets, last: Call, key: Key, w: Option<Window>, at: int)
    requires config.enabled && BucketIs(b, key, w, last.at) && last.at <= at
    ensures var next := if key in Checked(config, b, last) then Some(Joined(config, w, last.at)) else w;
            BucketIs(After(config, b, last), key, next, at)
  {
    StepOf(config, b, last, key);
    HitJoins(config, b, key, w, last.at);
  }

  ghost predicate BucketsAre(config: Config, calls: seq<Call>, c: Call, at: int) {
    Identified(c) ==>
      var keys, b := BucketKeys(c.profile, c.source).value, BucketsAfter(config, calls);
      && BucketIs(b, keys[0], RequesterWindow(config, calls, c), at)
      && (!c.source.User? ==> BucketIs(b, keys[1], ChatWindow(config, calls, c), at))
  }

  lemma {:induction false} RunBuckets(config: Config, calls: seq<Call>, c: Call, at: int)
    requires config.enabled && Monotone(calls) && (calls != [] ==> calls[|calls| - 1].at <= at)
    ensures BucketsAre(config, calls, c, at)
    decreases |calls|
  {
    if calls != [] && Identified(c) {
      var earlier, last := calls[..|calls| - 1], calls[|calls| - 1];
      var b := BucketsAfter(config, earlier);
      RunBuckets(config, earlier, c, last.at);
      RunBuckets(config, earlier, last, last.at);
      HitsWindows(config, b, last, c, RequesterWindow(config, earlier, last));
      var keys := BucketKeys(c.profile, c.source).value;
      BucketStep(config, b, last, keys[0], RequesterWindow(config, earlier, c), at);
      if !c.source.User? {
        BucketStep(config, b, last, keys[1], ChatWindow(config, earlier, c), at);
      }
    }
  }

  lemma AnswerByBuckets(config: Config, calls: seq<Call>, c: Call)
    requires config.enabled && BucketsAre(config, calls, c, c.at)
    ensures AnsweredByWindows(config, calls, c, Decision(config, BucketsAfter(config, calls), c))
  {
    var b := BucketsAfter(config, calls);
    IdentifiedKeys(c);
    if Identified(c) {
      var keys := BucketKeys(c.profile, c.source).value;
      HitJoins(config, b, keys[0], RequesterWindow(config, calls, c), c.at);
      if !c.source.User? {
        HitJoins(config, b, keys[1], ChatWindow(config, calls, c), c.at);
      }
    }
  }

  /**
   * Every answer of every run is that of the windows of the call's own user, member and chat: no
   * other profile, chat, kind of chat or member uses up its quota, and nobody has quota twice.
   */
  lemma AnswersByOwnWindows(config: Config, calls: seq<Call>, i: nat)
    requires config.enabled && Monotone(calls) && i < |calls|
    ensures AnsweredByWindows(config, calls[..i], calls[i], AnswerAt(config, calls, i))
  {
    RunBuckets(config, calls[..i], calls[i], calls[i].at);
    AnswerByBuckets(config, calls[..i], calls[i]);
  }

  /** So does the limiter over Redis. */
  lemma RedisAnswersByOwnWindows(config: Config, calls: seq<Call>, next: Call)
    requires config.enabled && Monotone(calls + [next])
    ensures AnsweredByWindows(config, calls, next, Decision(config, Live(ViewsAfter(config, calls), next.at), next))
  {
    var all := calls + [next];
    assert all[..|calls|] == calls && all[|calls|] == next;
    AnswersByOwnWindows(config, all, |calls|);
    SameAnswers(config, calls, next);
  }

  /** Switched off, the limiter lets everybody through and counts nothing. */
  lemma DisabledAllows(config: Config, calls: seq<Call>, i: nat)
    requires !config.enabled && i < |calls|
    ensures AnswerAt(config, calls, i) == Answer(true, 9007199254740991, calls[i].at, false)
    ensures Before(config, calls, i + 1) == Before(config, calls, i)
  {
    NextBuckets(config, calls, i);
  }

  /** Exactly a call without its chat or user is refused whatever quota is left, and it uses up none. */
  lemma UnidentifiedIff(config: Config, calls: seq<Call>, i: nat)
    requires config.enabled && Monotone(calls) && i < |calls| && config.windowMs > 0
    ensures AnswerAt(config, calls, i) == Answer(false, 0, calls[i].at, false) <==> !Identified(calls[i])
    ensures !Identified(calls[i]) ==> Before(config, calls, i + 1) == Before(config, calls, i)
  {
    AnswersByOwnWindows(config, calls, i);
    NextBuckets(config, calls, i);
    IdentifiedKeys(calls[i]);
  }

  // ---- Only its own chat or user decides an answer ----

  /** The calls of c's user, or of c's chat. */
  predicate Related(a: Call, c: Call) {
    SameRequester(a, c) || SameChat(a, c)
  }

  function RelatedCalls(calls: seq<Call>, c: Call): seq<Call>
    decreases |calls|
  {
    if calls == [] then []
    else
      var earlier, last := RelatedCalls(calls[..|calls| - 1], c), calls[|calls| - 1];
      if Related(last, c) then earlier + [last] else earlier
  }

  lemma {:induction false} RelatedWindows(config: Config, calls: seq<Call>, c: Call, a: Call)
    requires a == c || Related(a, c)
    ensures RequesterWindow(config, RelatedCalls(calls, c), a) == RequesterWindow(config, calls, a)
    ensures ChatWindow(config, RelatedCalls(calls, c), a) == ChatWindow(config, calls, a)
    decreases |calls|
  {
    if calls != [] {
      var earlier, last := calls[..|calls| - 1], calls[|calls| - 1];
      RelatedWindows(config, earlier, c, a);
      if Related(last, c) {
        var kept := RelatedCalls(earlier, c);
        assert (kept + [last])[..|kept|] == kept;
        RelatedWindows(config, earlier, c, last);
      } else {
        assert !SameRequester(last, a) && !SameChat(last, a);
      }
    }
  }

  lemma {:induction false} RelatedMonotone(calls: seq<Call>, c: Call)
    requires Monotone(calls)
    ensures Monotone(RelatedCalls(calls, c))
    ensures RelatedCalls(calls, c) != [] ==>
              calls != [] && RelatedCalls(calls, c)[|RelatedCalls(calls, c)| - 1].at <= calls[|calls| - 1].at
    decreases |calls|
  {
    if calls != [] {
      var earlier, last := calls[..|calls| - 1], calls[|calls| - 1];
      RelatedMonotone(earlier, c);
      assert earlier != [] ==> earlier[|earlier| - 1].at <= last.at;
    }
  }

  /** The calls of other users, chats and profiles might as well not have been made. */
  lemma OthersDoNotMatter(config: Config, calls: seq<Call>, i: nat)
    requires config.enabled && Monotone(calls) && i < |calls|
    ensures var alone := Decision(config, BucketsAfter(config, RelatedCalls(calls[..i], calls[i])), calls[i]);
            var r := AnswerAt(config, calls, i);
            (r.allowed, r.remaining, r.resetAt) == (alone.allowed, alone.remaining, alone.resetAt)
  {
    var c, earlier := calls[i], calls[..i];
    RelatedMonotone(earlier, c);
    AnswersByOwnWindows(config, calls, i);
    RunBuckets(config, RelatedCalls(earlier, c), c, c.at);
    AnswerByBuckets(config, RelatedCalls(earlier, c), c);
    RelatedWindows(config, earlier, c, c);
  }

  // ---- The bounds, by where the calls come from ----

  /** The admitted calls of c's chat in an interval, whichever members sent them. */
  function ChatAdmitted(config: Config, calls: seq<Call>, c: Call, from: int, to: int): set<nat> {
    set i | 0 <= i < |calls| && from <= calls[i].at < to && SameChat(calls[i], c) && AnswerAt(config, calls, i).allowed
  }

  /** The admitted calls of c's user, or of c's member in c's chat. */
  function RequesterAdmitted(config: Config, calls: seq<Call>, c: Call, from: int, to: int): set<nat> {
    set i | 0 <= i < |calls| && from <= calls[i].at < to && SameRequester(calls[i], c) &&
            AnswerAt(config, calls, i).allowed
  }

  /** A call that is admitted has hit all its buckets. */
  lemma AdmittedHitsAll(config: Config, b: Buckets, c: Call)
    requires config.enabled && Decision(config, b, c).allowed
    ensures Identified(c) && Checked(config, b, c) == BucketKeys(c.profile, c.source).value
  {
    IdentifiedKeys(c);
  }

  /** Admitted calls of one chat or one requester use up quota of the same buckets. */
  lemma AlikeAdmitted(config: Config, calls: seq<Call>, i: nat, j: nat)
    requires config.enabled && i < |calls| && j < |calls|
    requires AnswerAt(config, calls, i).allowed && AnswerAt(config, calls, j).allowed
    ensures BucketKeys(calls[i].profile, calls[i].source).Some?
    ensures var keys := BucketKeys(calls[i].profile, calls[i].source).value;
            && (SameRequester(calls[j], calls[i]) ==> Admitted(config, calls, j, keys[0]))
            && (SameChat(calls[j], calls[i]) ==> |keys| == 2 && Admitted(config, calls, j, keys[1]))
  {
    AdmittedHitsAll(config, Before(config, calls, i), calls[i]);
    AdmittedHitsAll(config, Before(config, calls, j), calls[j]);
    RequesterKeys(calls[j], calls[i]);
  }

  lemma AlikeEachOther(a: Call, b: Call, c: Call)
    ensures SameRequester(a, c) && SameRequester(b, c) ==> SameRequester(a, b)
    ensures SameChat(a, c) && SameChat(b, c) ==> SameChat(a, b)
  {
  }

  /** One chat: fewer than twice its quota in any half-open interval of one window length. */
  lemma ChatBoundHolds(config: Config, calls: seq<Call>, c: Call, from: int)
    requires config.enabled && Monotone(calls)
    ensures |ChatAdmitted(config, calls, c, from, from + config.windowMs)| <= Max(0, 2 * ChatQuota(config) - 1)
  {
    var few := ChatAdmitted(config, calls, c, from, from + config.windowMs);
    if i :| i in few {
      AlikeEachOther(calls[i], calls[i], c);
      AlikeAdmitted(config, calls, i, i);
      var key := BucketKeys(calls[i].profile, calls[i].source).value[1];
      forall j | j in few
        ensures Admitted(config, calls, j, key)
      {
        AlikeEachOther(calls[j], calls[i], c);
        AlikeAdmitted(config, calls, i, j);
      }
      RateBoundHolds(config, calls, key, from);
      Fewer(few, AdmittedIn(config, calls, key, from, from + config.windowMs));
    }
  }

  /** One user or member: fewer than twice a requester's quota. */
  lemma RequesterBoundHolds(config: Config, calls: seq<Call>, c: Call, from: int)
    requires config.enabled && Monotone(calls)
    ensures |RequesterAdmitted(config, calls, c, from, from + config.windowMs)| <= Max(0, 2 * config.maxRequests - 1)
  {
    var few := RequesterAdmitted(config, calls, c, from, from + config.windowMs);
    if i :| i in few {
      AlikeAdmitted(config, calls, i, i);
      var key := BucketKeys(calls[i].profile, calls[i].source).value[0];
      forall j | j in few
        ensures Admitted(config, calls, j, key)
      {
        AlikeEachOther(calls[j], calls[i], c);
        AlikeAdmitted(config, calls, i, j);
      }
      RateBoundHolds(config, calls, key, from);
      Fewer(few, AdmittedIn(config, calls, key, from, from + config.windowMs));
    }
  }

  lemma {:induction false} Fewer(few: set<nat>, many: set<nat>)
    requires few <= many
    ensures |few| <= |many|
    decreases few
  {
    if i :| i in few {
      Fewer(few - {i}, many - {i});
    }
  }

  /** Call i of a burst comes from the burst's user or chat, and asks its bucket. */
  predicate OfCrowd(calls: seq<Call>, who: Crowd, i: nat)
    requires i < |calls|
  {
    && (if who.OneUser? then SameRequester(calls[i], calls[0]) else SameChat(calls[i], calls[0]))
    && BucketKeys(calls[i].profile, calls[i].source).Some?
    && BurstKey(who) in BucketKeys(calls[i].profile, calls[i].source).value
  }

  lemma BurstIsOne(limit: nat, windowMs: nat, who: Crowd, i: nat)
    requires limit >= 1 && i < 2 * limit
    ensures OfCrowd(Burst(limit, windowMs, who), who, i)
  {
    var call := Burst(limit, windowMs, who)[i];
    assert who.OneUser? ==> BucketKeys(0, call.source).value[0] == BurstKey(who);
    assert who.Chat? ==> BucketKeys(0, call.source).value[1] == BurstKey(who);
  }

  /** The admitted calls of the burst's own user or chat. */
  function CrowdAdmitted(config: Config, calls: seq<Call>, who: Crowd, from: int, to: int): set<nat>
    requires calls != []
  {
    if who.OneUser? then RequesterAdmitted(config, calls, calls[0], from, to)
    else ChatAdmitted(config, calls, calls[0], from, to)
  }

  lemma CrowdAdmittedAt(config: Config, calls: seq<Call>, who: Crowd, from: int, to: int, i: nat)
    requires i < |calls| && OfCrowd(calls, who, i)
    ensures i in CrowdAdmitted(config, calls, who, from, to) <==>
            from <= calls[i].at < to && AnswerAt(config, calls, i).allowed
  {
  }

  /** The bounds are reached: by one user, and by one group or one room whose members take turns. */
  lemma SourceBoundsAreTight(config: Config, limit: nat, who: Crowd)
    requires config.enabled && config.windowMs >= 2 && limit >= 1 && config.maxRequests >= 1
    requires limit == if who.OneUser? then config.maxRequests else ChatQuota(config)
    ensures var calls := Burst(limit, config.windowMs, who);
            && calls != [] && calls[0].source == BurstSource(who, 0) && Monotone(calls)
            && |CrowdAdmitted(config, calls, who, config.windowMs - 1, 2 * config.windowMs - 1)| == 2 * limit - 1
  {
    var calls := Burst(limit, config.windowMs, who);
    BurstMonotone(limit, config.windowMs, who);
    var admitted := CrowdAdmitted(config, calls, who, config.windowMs - 1, 2 * config.windowMs - 1);
    forall i: nat
      ensures i in admitted <==> 1 <= i < 2 * limit
    {
      if i < |calls| {
        BurstIsOne(limit, config.windowMs, who, i);
        BurstTimes(limit, config.windowMs, who, i);
        CrowdAdmittedAt(config, calls, who, config.windowMs - 1, 2 * config.windowMs - 1, i);
      }
      if 0 < i < |calls| {
        BurstAdmits(config, limit, who, i);
      }
    }
    AllBut(admitted, 2 * limit);
  }
}
