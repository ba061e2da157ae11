/**
 * Whole runs of the job scripts, src/agent/jobs.ts: any callers, any stamps, and completions whose
 * reading and writing other scripts may come between.
 */
module JobsRedisRuns {
  import opened Basics
  import opened Jobs
  import opened JobsRedis

  /** readings holds what each caller of complete has read and not yet written. */
  datatype Sys = Sys(keys: Keys, readings: map<nat, Job>)

  datatype Event =
    | CreateAt(op: JobOp, stamp: Time, at: Time)
    | ExecuteAt(id: JobId, start: bool, stamp: Time, leaseMs: nat, at: Time)
    | FailAt(id: JobId, error: string, at: Time)
    | ReadAt(caller: nat, id: JobId, clock: Time, at: Time)
    | CompleteAt(caller: nat, result: ExecResult, capability: Option<string>, at: Time)

  predicate Legal(e: Event) {
    (e.CreateAt? ==> e.op.Create? && e.op.ttlMs > 0 && e.stamp <= e.at) && (e.ExecuteAt? ==> e.stamp <= e.at)
  }

  function Next(s: Sys, e: Event): Sys
    requires Legal(e)
  {
    match e
    case CreateAt(op, stamp, at) => s.(keys := Created(s.keys, op, stamp, at))
    case ExecuteAt(id, start, stamp, leaseMs, at) => s.(keys := AfterExecution(s.keys, id, start, stamp, leaseMs, at))
    case FailAt(id, error, at) => s.(keys := AfterFailure(s.keys, id, error, at))
    case ReadAt(caller, id, clock, at) =>
      if LiveKey(s.keys, id, at) && !Closed(s.keys[id].job.status) && s.keys[id].job.expiresAt > clock
      then s.(readings := s.readings[caller := s.keys[id].job]) else s.(readings := s.readings - {caller})
    case CompleteAt(caller, result, capability, at) =>
      if caller !in s.readings then s
      else Sys(AfterCompletion(s.keys, s.readings[caller], result, capability, at), s.readings - {caller})
  }

  predicate Ordered(now: Time, es: seq<Event>)
    decreases |es|
  {
    es == [] || (Legal(es[0]) && now <= es[0].at && Ordered(es[0].at, es[1..]))
  }

  function Run(s: Sys, now: Time, es: seq<Event>): Sys
    requires Ordered(now, es)
    decreases |es|
  {
    if es == [] then s else Run(Next(s, es[0]), es[0].at, es[1..])
  }

  function LastAt(now: Time, es: seq<Event>): Time {
    if es == [] then now else es[|es| - 1].at
  }

  lemma {:induction false} TimePasses(now: Time, es: seq<Event>)
    requires Ordered(now, es)
    ensures now <= LastAt(now, es)
    decreases |es|
  {
    if es != [] {
      TimePasses(es[0].at, es[1..]);
      assert LastAt(now, es) == LastAt(es[0].at, es[1..]);
    }
  }

  const Nobody := Sys(map[], map[])

  /** The script puts a new record under this id. */
  predicate Inserts(s: Sys, e: Event, id: JobId) {
    e.CreateAt? && e.op.id == id && !LiveKey(s.keys, id, e.at)
  }

  /** No script of the run starts a new record under the id. */
  predicate OneLifetime(s: Sys, now: Time, es: seq<Event>, id: JobId)
    requires Ordered(now, es)
    decreases |es|
  {
    es == [] || (!Inserts(s, es[0], id) && OneLifetime(Next(s, es[0]), es[0].at, es[1..], id))
  }

  // ---- Every state that is reached ----

  predicate Leased(j: Job) {
    j.executionLeaseUntil.Some? ==> j.executionStartedAt.Some?
  }

  /** A record under its own id, leased only when started, and expired when its key dies. */
  predicate GoodEntry(id: JobId, entry: Entry) {
    entry.job.id == id && Leased(entry.job) && entry.job.expiresAt <= entry.deadline
  }

  /** Callers have read open records, of this or of an earlier life of the id. */
  predicate GoodReading(keys: Keys, j: Job) {
    !Closed(j.status) && Leased(j) && j.id in keys && j.expiresAt <= keys[j.id].deadline
  }

  ghost predicate Good(s: Sys) {
    && (forall id :: id in s.keys ==> GoodEntry(id, s.keys[id]))
    && (forall c :: c in s.readings ==> GoodReading(s.keys, s.readings[c]))
  }

  /** Keys stay, and their lives only get longer. */
  lemma KeysStay(s: Sys, e: Event, id: JobId)
    requires Legal(e) && id in s.keys
    ensures id in Next(s, e).keys && s.keys[id].deadline <= Next(s, e).keys[id].deadline
    ensures !Inserts(s, e, id) ==> Next(s, e).keys[id].deadline == s.keys[id].deadline
  {
  }

  lemma EntriesStayGood(s: Sys, e: Event)
    requires Good(s) && Legal(e)
    ensures forall id :: id in Next(s, e).keys ==> GoodEntry(id, Next(s, e).keys[id])
  {
    if e.CompleteAt? && e.caller in s.readings {
      assert GoodReading(s.keys, s.readings[e.caller]);
    }
  }

  lemma StepIsGood(s: Sys, e: Event)
    requires Good(s) && Legal(e)
    ensures Good(Next(s, e))
  {
    EntriesStayGood(s, e);
    var next := Next(s, e);
    forall c | c in next.readings
      ensures GoodReading(next.keys, next.readings[c])
    {
      if c in s.readings && next.readings[c] == s.readings[c] {
        KeysStay(s, e, s.readings[c].id);
      } else {
        assert GoodEntry(e.id, s.keys[e.id]);
      }
    }
  }

  lemma {:induction false} RunStaysGood(s: Sys, now: Time, es: seq<Event>)
    requires Good(s) && Ordered(now, es)
    ensures Good(Run(s, now, es))
    decreases |es|
  {
    if es != [] {
      StepIsGood(s, es[0]);
      RunStaysGood(Next(s, es[0]), es[0].at, es[1..]);
    }
  }

  /** Whatever scripts have run since the store was empty. */
  lemma ReachedIsGood(before: seq<Event>)
    requires Ordered(0, before)
    ensures Good(Run(Nobody, 0, before))
  {
    RunStaysGood(Nobody, 0, before);
  }

  // ---- What one lifetime keeps, whatever the stamps ----

  /** k may follow j: the same record, whose capability only a completion changes. */
  ghost predicate Kept(j: Job, k: Job) {
    && (j.id, j.scope, j.jobLabel, j.createdAt, j.expiresAt) == (k.id, k.scope, k.jobLabel, k.createdAt, k.expiresAt)
    && (j.status == Uncertain ==> k.status == Uncertain || k.status == Completed)
    && (k.status == Completed || k.capability == j.capability)
    && (k.status == Completed || (j.executionStartedAt.Some? ==> k.executionStartedAt == j.executionStartedAt))
  }

  /** A closed record stays as it is; an open one is kept, or ends up closed. */
  ghost predicate Follows(j: Job, k: Job) {
    (Closed(j.status) ==> k == j) && (Closed(k.status) || Kept(j, k))
  }

  lemma FollowsTransitive(j: Job, k: Job, l: Job)
    requires Follows(j, k) && Follows(k, l)
    ensures Follows(j, l)
  {
  }

  lemma StepFollows(s: Sys, e: Event, id: JobId)
    requires Good(s) && id in s.keys && Legal(e) && !Inserts(s, e, id)
    ensures id in Next(s, e).keys && Next(s, e).keys[id].deadline == s.keys[id].deadline
    ensures Follows(s.keys[id].job, Next(s, e).keys[id].job)
  {
    assert GoodEntry(id, s.keys[id]);
  }

  /**
   * Over any run of scripts within one lifetime, late stamps and split completions included, closed
   * records do not change and open ones keep their identity, start and capability until they close.
   */
  lemma {:induction false} RunFollows(s: Sys, now: Time, es: seq<Event>, id: JobId)
    requires Good(s) && id in s.keys && Ordered(now, es) && OneLifetime(s, now, es, id)
    ensures id in Run(s, now, es).keys && Run(s, now, es).keys[id].deadline == s.keys[id].deadline
    ensures Follows(s.keys[id].job, Run(s, now, es).keys[id].job)
    decreases |es|
  {
    if es != [] {
      var next := Next(s, es[0]);
      StepFollows(s, es[0], id);
      StepIsGood(s, es[0]);
      RunFollows(next, es[0].at, es[1..], id);
      FollowsTransitive(s.keys[id].job, next.keys[id].job, Run(s, now, es).keys[id].job);
    }
  }

  /** Within one record lifetime start succeeds at most once, whatever scripts run in between. */
  lemma StartsAtMostOnce(before: seq<Event>, start: Event, es: seq<Event>, again: Event)
    requires Ordered(0, before) && Legal(start) && Ordered(start.at, es)
    requires start.ExecuteAt? && start.start && again.ExecuteAt? && again.start && again.id == start.id
    requires var s := Run(Nobody, 0, before);
             && Executes(s.keys, start.id, true, start.stamp, start.leaseMs, start.at)
             && OneLifetime(Next(s, start), start.at, es, start.id)
    ensures var t := Run(Next(Run(Nobody, 0, before), start), start.at, es);
            !Executes(t.keys, again.id, true, again.stamp, again.leaseMs, again.at)
  {
    var s := Run(Nobody, 0, before);
    ReachedIsGood(before);
    StepIsGood(s, start);
    RunFollows(Next(s, start), start.at, es, start.id);
  }

  // ---- A completion made of an earlier reading ----

  /** Alike to every reader of a closed job: all but the execution times and a superseded error. */
  predicate SameOutcome(j: Job, k: Job) {
    && (j.id, j.scope, j.jobLabel, j.createdAt, j.expiresAt) == (k.id, k.scope, k.jobLabel, k.createdAt, k.expiresAt)
    && (j.status, j.result, j.capability) == (k.status, k.result, k.capability)
  }

  /** The run leaves this caller's reading alone. */
  predicate Waits(es: seq<Event>, caller: nat) {
    forall i :: 0 <= i < |es| ==> (es[i].ReadAt? || es[i].CompleteAt? ==> es[i].caller != caller)
  }

  lemma {:induction false} ReadingWaits(s: Sys, now: Time, es: seq<Event>, caller: nat)
    requires Ordered(now, es) && caller in s.readings && Waits(es, caller)
    ensures caller in Run(s, now, es).readings && Run(s, now, es).readings[caller] == s.readings[caller]
    decreases |es|
  {
    if es != [] {
      ReadingWaits(Next(s, es[0]), es[0].at, es[1..], caller);
    }
  }

  /** The write at t does to the record what completing it there in one step would, and touches no closed one. */
  predicate WritesAsOneStep(t: Sys, id: JobId, write: Event)
    requires write.CompleteAt?
  {
    && id in t.keys && id in Next(t, write).keys
    && var k, done := t.keys[id].job, Next(t, write).keys[id].job;
       if Overwrites(t.keys, id, write.at) then SameOutcome(done, CompletedFrom(k, write.result, write.capability))
       else done == k
  }

  /** The two halves of one call of complete. */
  predicate ReadThenWrite(read: Event, write: Event, id: JobId) {
    read.ReadAt? && read.id == id && write.CompleteAt? && write.caller == read.caller
  }

  /** Within the record's lifetime every write is as one step. */
  lemma SplitCompletionAgrees(s: Sys, id: JobId, read: Event, es: seq<Event>, write: Event)
    requires Good(s) && id in s.keys && ReadThenWrite(read, write, id)
    requires read.caller in Next(s, read).readings && Ordered(read.at, es) && Waits(es, read.caller)
    requires OneLifetime(Next(s, read), read.at, es, id)
    ensures WritesAsOneStep(Run(Next(s, read), read.at, es), id, write)
  {
    var r := Next(s, read);
    StepIsGood(s, read);
    RunFollows(r, read.at, es, id);
    ReadingWaits(r, read.at, es, read.caller);
  }

  /** A key that outlives the run has one record throughout. */
  lemma {:induction false} OutlivesTheRun(s: Sys, now: Time, es: seq<Event>, id: JobId)
    requires Ordered(now, es) && id in s.keys && LastAt(now, es) < s.keys[id].deadline
    ensures OneLifetime(s, now, es, id)
    decreases |es|
  {
    if es != [] {
      TimePasses(es[0].at, es[1..]);
      assert LastAt(now, es) == LastAt(es[0].at, es[1..]);
      KeysStay(s, es[0], id);
      OutlivesTheRun(Next(s, es[0]), es[0].at, es[1..], id);
    }
  }

  /** The id is used again at the instant its key dies, for a record that lives until after the write. */
  function Successor(s: Sys, id: JobId, at: Time): Event
    requires id in s.keys && s.keys[id].deadline <= at
  {
    var d := s.keys[id].deadline;
    CreateAt(Create(id, s.keys[id].job.scope, None, s.keys[id].job.jobLabel + "x", at - d + 1), d, d)
  }

  lemma SuccessorIsReplaced(s: Sys, id: JobId, read: Event, write: Event)
    requires Good(s) && id in s.keys && ReadThenWrite(read, write, id)
    requires read.caller in Next(s, read).readings && s.keys[id].deadline <= write.at
    ensures var es := [Successor(s, id, write.at)];
            && Ordered(read.at, es) && LastAt(read.at, es) <= write.at && Waits(es, read.caller)
            && !WritesAsOneStep(Run(Next(s, read), read.at, es), id, write)
  {
    var r, e := Next(s, read), Successor(s, id, write.at);
    var es := [e];
    assert es[1..] == [] && Ordered(e.at, []);
    var t := Next(r, e);
    assert Run(r, read.at, es) == Run(t, e.at, []) == t;
    assert t.keys[id] == Entry(NewJob(e.op, e.stamp), write.at + 1) && Overwrites(t.keys, id, write.at);
    assert |e.op.jobLabel| == |s.keys[id].job.jobLabel| + 1;
  }

  /**
   * When a completion in two steps is one: a caller that has read an open record and writes at this
   * time does what a completion in one step would do, whatever scripts run in between, late renewals
   * and other callers' split completions among them, exactly when the key it read is still alive.
   */
  lemma SplitCompletionAgreesIff(s: Sys, id: JobId, read: Event, write: Event)
    requires Good(s) && id in s.keys && ReadThenWrite(read, write, id)
    requires read.caller in Next(s, read).readings && read.at <= write.at
    ensures (forall es :: Ordered(read.at, es) && LastAt(read.at, es) <= write.at && Waits(es, read.caller) ==>
               WritesAsOneStep(Run(Next(s, read), read.at, es), id, write)) <==>
            write.at < s.keys[id].deadline
  {
    if write.at < s.keys[id].deadline {
      forall es | Ordered(read.at, es) && LastAt(read.at, es) <= write.at && Waits(es, read.caller)
        ensures WritesAsOneStep(Run(Next(s, read), read.at, es), id, write)
      {
        KeysStay(s, read, id);
        OutlivesTheRun(Next(s, read), read.at, es, id);
        SplitCompletionAgrees(s, id, read, es, write);
      }
    } else {
      SuccessorIsReplaced(s, id, read, write);
    }
  }

  /** A write from the death of its key on hides whatever record it goes over, from every reader and for good. */
  lemma LateWriteHides(s: Sys, id: JobId, read: Event, es: seq<Event>, write: Event, scope: Scope, later: Time)
    requires Good(s) && id in s.keys && ReadThenWrite(read, write, id)
    requires read.caller in Next(s, read).readings && Ordered(read.at, es) && Waits(es, read.caller)
    requires s.keys[id].deadline <= write.at <= later
    requires Overwrites(Run(Next(s, read), read.at, es).keys, id, write.at)
    ensures Seen(Next(Run(Next(s, read), read.at, es), write).keys, id, scope, later) == None
  {
    assert GoodEntry(id, s.keys[id]);
    ReadingWaits(Next(s, read), read.at, es, read.caller);
  }

  // ---- What a reader sees ----

  /** The renewal is accepted after the lease lapsed, with a new lease that is still ahead. */
  predicate Revives(s: Sys, e: Event, id: JobId) {
    && e.ExecuteAt? && e.id == id && !e.start && Executes(s.keys, id, false, e.stamp, e.leaseMs, e.at)
    && s.keys[id].job.executionLeaseUntil.value <= e.at < e.stamp + e.leaseMs
  }

  predicate NoneRevives(s: Sys, now: Time, es: seq<Event>, id: JobId)
    requires Ordered(now, es)
    decreases |es|
  {
    es == [] || (!Revives(s, es[0], id) && NoneRevives(Next(s, es[0]), es[0].at, es[1..], id))
  }

  /** Callers whose clock is the server's revive nothing. */
  lemma {:induction false} OnTimeNeverRevives(s: Sys, now: Time, es: seq<Event>, id: JobId)
    requires Ordered(now, es) && forall i :: 0 <= i < |es| && es[i].ExecuteAt? ==> es[i].stamp == es[i].at
    ensures NoneRevives(s, now, es, id)
    decreases |es|
  {
    if es != [] {
      OnTimeNeverRevives(Next(s, es[0]), es[0].at, es[1..], id);
    }
  }

  /** The place of what a reader of this record would see at this time: pending, uncertain, closed. */
  function SeenRank(s: Sys, id: JobId, at: Time): nat
    requires id in s.keys
  {
    Rank(Projected(s.keys[id].job, at).status)
  }

  /** A script takes a reader's answer back exactly when it is a renewal that revives a lapsed lease. */
  lemma LateRenewalRevivesIff(s: Sys, e: Event, id: JobId)
    requires Good(s) && id in s.keys && Legal(e) && !Inserts(s, e, id)
    ensures id in Next(s, e).keys
    ensures SeenRank(Next(s, e), id, e.at) < SeenRank(s, id, e.at) <==> Revives(s, e, id)
  {
    StepFollows(s, e, id);
    assert GoodEntry(id, s.keys[id]);
  }

  lemma {:induction false} RunSeenForward(s: Sys, now: Time, es: seq<Event>, id: JobId)
    requires Good(s) && id in s.keys && Ordered(now, es) && OneLifetime(s, now, es, id) && NoneRevives(s, now, es, id)
    ensures id in Run(s, now, es).keys && SeenRank(s, id, now) <= SeenRank(Run(s, now, es), id, LastAt(now, es))
    decreases |es|
  {
    if es != [] {
      var e := es[0];
      LateRenewalRevivesIff(s, e, id);
      StepIsGood(s, e);
      RunSeenForward(Next(s, e), e.at, es[1..], id);
      assert SeenRank(s, id, now) <= SeenRank(s, id, e.at);
      assert LastAt(now, es) == LastAt(e.at, es[1..]);
    }
  }

  /**
   * Two answers of get within one record lifetime, after any run since the store was empty and with
   * any scripts in between that revive no lapsed lease, split completions included: the status never
   * goes back, a closed answer never changes, and a job seen as uncertain is not seen as pending again.
   */
  lemma SeenIsMonotone(before: seq<Event>, now: Time, es: seq<Event>, later: Time, id: JobId, scope: Scope)
    requires Ordered(0, before) && Ordered(now, es) && LastAt(now, es) <= later
    requires var s := Run(Nobody, 0, before);
             && OneLifetime(s, now, es, id) && NoneRevives(s, now, es, id)
             && Seen(s.keys, id, scope, now).Some? && Seen(Run(s, now, es).keys, id, scope, later).Some?
    ensures var s := Run(Nobody, 0, before);
            var v, w := Seen(s.keys, id, scope, now).value, Seen(Run(s, now, es).keys, id, scope, later).value;
            && Rank(v.status) <= Rank(w.status)
            && (Closed(v.status) ==> w == v)
            && (v.status == Uncertain ==> w.status != Pending)
  {
    var s := Run(Nobody, 0, before);
    ReachedIsGood(before);
    RunFollows(s, now, es, id);
    RunSeenForward(s, now, es, id);
    assert SeenRank(Run(s, now, es), id, LastAt(now, es)) <= SeenRank(Run(s, now, es), id, later);
  }

  // ---- Both conditions are needed: two runs from the empty store ----

  const Anyone := Scope("p", "s", Some("u"))

  lemma RunsTwo(s: Sys, a: Event, b: Event)
    requires Legal(a) && Legal(b) && a.at <= b.at
    ensures Ordered(0, [a, b]) && Run(s, 0, [a, b]) == Next(Next(s, a), b)
  {
    assert [a, b][1..] == [b] && [b][1..] == [];
    assert Ordered(a.at, [b]) && Ordered(b.at, []);
    assert Run(Next(s, a), a.at, [b]) == Run(Next(Next(s, a), b), b.at, []);
  }

  lemma RunsThree(s: Sys, a: Event, b: Event, c: Event)
    requires Legal(a) && Legal(b) && Legal(c) && a.at <= b.at <= c.at
    ensures Ordered(0, [a, b, c]) && Run(s, 0, [a, b, c]) == Next(Next(Next(s, a), b), c)
  {
    assert [a, b, c][1..] == [b, c] && [b, c][1..] == [c] && [c][1..] == [];
    assert Ordered(c.at, []) && Ordered(b.at, [c]) && Ordered(a.at, [b, c]);
    var one, two := Next(s, a), Next(Next(s, a), b);
    assert Run(two, b.at, [c]) == Run(Next(two, c), c.at, []);
    assert Run(one, a.at, [b, c]) == Run(two, b.at, [c]);
  }

  function Late(): seq<Event> {
    [CreateAt(Create(1, Anyone, None, "job", 100), 0, 0), ExecuteAt(1, true, 0, 10, 0), ExecuteAt(1, false, 8, 10, 12)]
  }

  lemma LateJob(s: Sys)
    requires s == Nobody
    ensures var create, start, renew := Late()[0], Late()[1], Late()[2];
            var started := Next(Next(s, create), start);
            var renewed := Next(started, renew);
            && Seen(started.keys, 1, Anyone, 12).Some? && Seen(started.keys, 1, Anyone, 12).value.status == Uncertain
            && Seen(renewed.keys, 1, Anyone, 12).Some? && Seen(renewed.keys, 1, Anyone, 12).value.status == Pending
  {
    var created := Next(s, Late()[0]);
    var j := created.keys[1].job;
    assert j == NewJob(Late()[0].op, 0) && created.keys[1].deadline == 100;
    var started := Next(created, Late()[1]);
    assert started.keys[1].job == j.(executionStartedAt := Some(0), executionLeaseUntil := Some(10));
    var renewed := Next(started, Late()[2]);
    assert renewed.keys[1].job == started.keys[1].job.(executionLeaseUntil := Some(18));
  }

  /** Created, started, and renewed with a stamp of 8 at time 12, after the lease lapsed at 10. */
  lemma LateRenewalIsReachable()
    ensures Ordered(0, Late()[..2]) && Ordered(0, Late())
    ensures var s, t := Run(Nobody, 0, Late()[..2]), Run(Nobody, 0, Late());
            && Seen(s.keys, 1, Anyone, 12).Some? && Seen(s.keys, 1, Anyone, 12).value.status == Uncertain
            && Seen(t.keys, 1, Anyone, 12).Some? && Seen(t.keys, 1, Anyone, 12).value.status == Pending
  {
    LateJob(Nobody);
    var create, start, renew := Late()[0], Late()[1], Late()[2];
    RunsTwo(Nobody, create, start);
    RunsThree(Nobody, create, start, renew);
    assert Late()[..2] == [create, start] && Late() == [create, start, renew];
  }

  /** A record is created and read, expires, and its id is used again before the reader writes. */
  function Reused(): seq<Event> {
    [CreateAt(Create(1, Anyone, None, "old", 10), 0, 0), ReadAt(0, 1, 5, 5),
     CreateAt(Create(1, Anyone, None, "new", 10), 12, 12)]
  }

  const LateWrite := CompleteAt(0, ExecResult(true, ""), None, 13)

  lemma ReusedJob(s: Sys)
    requires s == Nobody
    ensures var t := Next(Next(Next(s, Reused()[0]), Reused()[1]), Reused()[2]);
            && Seen(t.keys, 1, Anyone, 13).Some? && Seen(t.keys, 1, Anyone, 13).value.jobLabel == "new"
            && forall scope, later: Time :: later >= 13 ==> Seen(Next(t, LateWrite).keys, 1, scope, later) == None
  {
    var first := Next(s, Reused()[0]);
    var older := NewJob(Reused()[0].op, 0);
    assert first.keys == map[1 := Entry(older, 10)];
    var read := Next(first, Reused()[1]);
    assert read.readings == map[0 := older];
    var t := Next(read, Reused()[2]);
    assert t.keys[1] == Entry(NewJob(Reused()[2].op, 12), 22);
    assert Next(t, LateWrite).keys[1].job.expiresAt == 10;
  }

  /** The new job is seen until the late completion of the old one is written, and by nobody afterwards. */
  lemma LateCompletionHidesTheNextJob()
    ensures Ordered(0, Reused())
    ensures var t := Run(Nobody, 0, Reused());
            && Seen(t.keys, 1, Anyone, 13).Some? && Seen(t.keys, 1, Anyone, 13).value.jobLabel == "new"
            && forall scope, later: Time :: later >= 13 ==> Seen(Next(t, LateWrite).keys, 1, scope, later) == None
  {
    ReusedJob(Nobody);
    RunsThree(Nobody, Reused()[0], Reused()[1], Reused()[2]);
    assert Reused() == [Reused()[0], Reused()[1], Reused()[2]];
  }
}
