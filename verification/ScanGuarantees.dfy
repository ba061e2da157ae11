/**
 * What the scan protocol guarantees in every run: the main results, read off the invariant.
 */
module ScanGuarantees {
  import opened Basics
  import opened ScanWork
  import opened ScanWorker
  import opened ScanWorkStore
  import opened ScanProtocol
  import opened ScanInvariant
  import Jobs

  predicate ValidRun(env: Env, s: Sys, steps: seq<Step>)
    decreases |steps|
  {
    steps == [] || (Enabled(env, s, steps[0]) && ValidRun(env, Next(env, s, steps[0]), steps[1..]))
  }

  function End(env: Env, s: Sys, steps: seq<Step>): Sys
    requires ValidRun(env, s, steps)
    decreases |steps|
  {
    if steps == [] then s else End(env, Next(env, s, steps[0]), steps[1..])
  }

  lemma {:induction false} RunKeepsInv(env: Env, s: Sys, steps: seq<Step>)
    requires Inv(s) && ValidRun(env, s, steps)
    ensures Inv(End(env, s, steps))
    decreases |steps|
  {
    if steps != [] {
      StepKeepsInv(env, s, steps[0]);
      RunKeepsInv(env, Next(env, s, steps[0]), steps[1..]);
    }
  }

  // ---- At most one publication ----

  /** The resource reports the size and the digest of its own bytes. */
  predicate Genuine(env: Env, r: Resource) {
    r.sizeBytes == |r.data| && r.sha256 == env.sha256(r.data)
  }

  ghost predicate OnlyGenuine(env: Env, s: Sys) {
    && (forall n :: n in s.workers && (s.workers[n].pc.Beginning? || s.workers[n].pc.Calling?) ==>
          Genuine(env, s.workers[n].pc.resource))
    && (forall i :: 0 <= i < |s.publications| ==> Genuine(env, s.publications[i].resource))
  }

  lemma ReplyGenuine(env: Env, w: Worker, reply: Reply)
    requires env.Faithful() && w.work.Some? && AfterReply(env, w, reply).Some?
    requires w.pc.Beginning? || w.pc.Calling? ==> Genuine(env, w.pc.resource)
    ensures var x := AfterReply(env, w, reply).value; x.pc.Beginning? || x.pc.Calling? ==> Genuine(env, x.pc.resource)
  {
  }

  lemma AnswerGenuine(env: Env, w: Worker, r: Records, op: Op, at: Time)
    requires Asks(w, op)
    ensures var x := AfterAnswer(env, w, r, op, at);
            x.pc.Beginning? || x.pc.Calling? ==> w.pc.Beginning? && x.pc.resource == w.pc.resource
  {
  }

  lemma MovedGenuine(env: Env, s: Sys, t: Sys, n: nat, x: Worker)
    requires OnlyGenuine(env, s) && t.workers == s.workers && t.publications == s.publications
    requires x.pc.Beginning? || x.pc.Calling? ==> Genuine(env, x.pc.resource)
    ensures OnlyGenuine(env, Moved(t, n, x))
  {
  }

  lemma ThrowGenuine(w: Worker, error: Error)
    requires CallsOut(w.pc)
    ensures !AfterThrow(w, error).pc.Beginning? && !AfterThrow(w, error).pc.Calling?
  {
  }

  lemma StoreCallGenuine(env: Env, s: Sys, n: nat, op: Op, at: Time, fate: Fate)
    requires OnlyGenuine(env, s) && n in s.workers && CallsOut(s.workers[n].pc) && Asks(s.workers[n], op)
    ensures OnlyGenuine(env, StoreCalled(env, s, n, op, at, fate))
  {
    var w, t := s.workers[n], Effect(s, n, Event(op, at));
    match fate
    case Answered =>
      AnswerGenuine(env, w, s.st.records, op, at);
      MovedGenuine(env, s, t, n, AfterAnswer(env, w, s.st.records, op, at));
    case ThrewAfter(error) =>
      ThrowGenuine(w, error);
      MovedGenuine(env, s, t, n, AfterThrow(w, error));
    case ThrewBefore(error) =>
      ThrowGenuine(w, error);
      MovedGenuine(env, s, s, n, AfterThrow(w, error));
  }

  lemma StepKeepsGenuine(env: Env, s: Sys, step: Step)
    requires env.Faithful() && OnlyGenuine(env, s) && Enabled(env, s, step)
    ensures OnlyGenuine(env, Next(env, s, step))
  {
    match step
    case Service(n, reply) =>
      ReplyGenuine(env, s.workers[n], reply);
      MovedGenuine(env, s, s, n, AfterReply(env, s.workers[n], reply).value);
    case StoreCall(n, at, token, deadline, fate) =>
      StoreCallGenuine(env, s, n, Request(s.workers[n], token, deadline).value, at, fate);
    case TellJob(n, at, fate) => TellGenuine(env, s, n, at, fate);
    case _ =>
  }

  lemma TellGenuine(env: Env, s: Sys, n: nat, at: Time, fate: Fate)
    requires OnlyGenuine(env, s) && Enabled(env, s, TellJob(n, at, fate))
    ensures OnlyGenuine(env, Next(env, s, TellJob(n, at, fate)))
  {
  }

  lemma {:induction false} RunKeepsGenuine(env: Env, s: Sys, steps: seq<Step>)
    requires env.Faithful() && OnlyGenuine(env, s) && ValidRun(env, s, steps)
    ensures OnlyGenuine(env, End(env, s, steps))
    decreases |steps|
  {
    if steps != [] {
      StepKeepsGenuine(env, s, steps[0]);
      RunKeepsGenuine(env, Next(env, s, steps[0]), steps[1..]);
    }
  }

  /**
   * At-most-once publication: in every interleaving of workers, redeliveries, lapsing leases, lost
   * answers and crashes, publishVerifiedResource is called at most once per work, by the worker
   * whose beginPublishing succeeded, after a clean scan with a signature version, and with bytes
   * whose size and digest are those of the descriptor persisted for the work and of the asset that
   * was scanned.
   */
  lemma AtMostOncePublication(env: Env, steps: seq<Step>)
    requires env.Faithful() && ValidRun(env, Started(), steps)
    ensures var s := End(env, Started(), steps);
            && (forall i, j :: 0 <= i < j < |s.publications| ==> s.publications[i].workId != s.publications[j].workId)
            && (forall i :: 0 <= i < |s.publications| ==>
                  var p := s.publications[i];
                  && p.workId in s.begun && s.begun[p.workId] == p.worker
                  && CleanVerdict(p.asset)
                  && p.workId in s.descriptors
                  && |p.resource.data| == s.descriptors[p.workId].sizeBytes
                  && env.sha256(p.resource.data) == s.descriptors[p.workId].checksumSha256
                  && p.resource.fileName == s.descriptors[p.workId].fileName
                  && p.resource.mimeType == s.descriptors[p.workId].mimeType
                  && p.asset.uploadStatus == UploadCompleted && p.asset.sizeBytes == Some(|p.resource.data|)
                  && p.asset.checksumSha256.Some?
                  && Lower(p.asset.checksumSha256.value) == env.sha256(p.resource.data))
  {
    RunKeepsInv(env, Started(), steps);
    RunKeepsGenuine(env, Started(), steps);
    var s := End(env, Started(), steps);
    forall i | 0 <= i < |s.publications|
      ensures PublicationOk(s, s.publications[i]) && Genuine(env, s.publications[i].resource)
    {
    }
  }

  // ---- The histories are what the records say, and never change ----

  /** Entries of the histories are written once. */
  ghost predicate Remembers(s: Sys, t: Sys) {
    && (forall id :: id in s.begun ==> id in t.begun && t.begun[id] == s.begun[id])
    && (forall id :: id in s.descriptors ==> id in t.descriptors && t.descriptors[id] == s.descriptors[id])
    && (forall id :: id in s.outcomes ==> id in t.outcomes && t.outcomes[id] == s.outcomes[id])
    && s.publications <= t.publications
  }

  lemma EffectRemembers(s: Sys, actor: nat, e: Event)
    requires GlobalOk(s) && Legal(s.st, e)
    ensures Remembers(s, Effect(s, actor, e))
  {
    EffectBegun(s, actor, e);
    EffectDescriptors(s, actor, e);
    EffectOutcomes(s, actor, e);
  }

  lemma MovedRemembers(s: Sys, t: Sys, n: nat, x: Worker)
    requires Remembers(s, t)
    ensures Remembers(s, Moved(t, n, x))
  {
  }

  lemma CallRemembers(env: Env, s: Sys, n: nat, op: Op, at: Time, fate: Fate)
    requires GlobalOk(s) && Legal(s.st, Event(op, at)) && n in s.workers && Asks(s.workers[n], op)
    ensures Remembers(s, StoreCalled(env, s, n, op, at, fate))
  {
    EffectRemembers(s, n, Event(op, at));
    match fate
    case Answered =>
      MovedRemembers(s, Effect(s, n, Event(op, at)), n, AfterAnswer(env, s.workers[n], s.st.records, op, at));
    case ThrewAfter(error) => MovedRemembers(s, Effect(s, n, Event(op, at)), n, AfterThrow(s.workers[n], error));
    case ThrewBefore(error) => MovedRemembers(s, s, n, AfterThrow(s.workers[n], error));
  }

  lemma QuietRemembers(env: Env, s: Sys, step: Step)
    requires Enabled(env, s, step) && !step.Others? && !step.StoreCall?
    ensures Remembers(s, Next(env, s, step))
  {
    match step
    case Service(n, reply) => MovedRemembers(s, Heard(s, n, reply), n, AfterReply(env, s.workers[n], reply).value);
    case TellJob(n, at, fate) => TellRemembers(env, s, n, at, fate);
    case _ => AloneRemembers(env, s, step);
  }

  lemma AloneRemembers(env: Env, s: Sys, step: Step)
    requires Enabled(env, s, step)
    requires step.Tick? || step.JobStep? || step.Deliver? || step.Publish? || step.Crash?
    ensures Remembers(s, Next(env, s, step))
  {
  }

  lemma TellRemembers(env: Env, s: Sys, n: nat, at: Time, fate: Fate)
    requires Enabled(env, s, TellJob(n, at, fate))
    ensures Remembers(s, Next(env, s, TellJob(n, at, fate)))
  {
  }

  lemma StepRemembers(env: Env, s: Sys, step: Step)
    requires GlobalOk(s) && Enabled(env, s, step)
    ensures Remembers(s, Next(env, s, step))
  {
    match step
    case Others(e) => EffectRemembers(s, 0, e);
    case StoreCall(n, at, token, deadline, fate) =>
      CallRemembers(env, s, n, Request(s.workers[n], token, deadline).value, at, fate);
    case _ => QuietRemembers(env, s, step);
  }

  /**
   * A persisted descriptor is never replaced, the first successful beginPublishing of a work is
   * its only one, and a work that ended stays ended with that status, code and update, even after
   * its record has expired.
   */
  lemma {:induction false} RunRemembers(env: Env, s: Sys, steps: seq<Step>)
    requires Inv(s) && ValidRun(env, s, steps)
    ensures Remembers(s, End(env, s, steps))
    decreases |steps|
  {
    if steps != [] {
      StepKeepsInv(env, s, steps[0]);
      StepRemembers(env, s, steps[0]);
      RunRemembers(env, Next(env, s, steps[0]), steps[1..]);
    }
  }

  // ---- Mutual exclusion ----

  /** The container a worker runs in is stopped within this limit of its claim. */
  predicate WithinReplicaLimit(s: Sys, w: Worker) {
    w.work.Some? && w.work.value.claimedAt.Some? && s.now < w.work.value.claimedAt.value + REPLICA_TIMEOUT_MS
  }

  /**
   * Mutual exclusion: two different runs are never both inside a claim of one work within the
   * replica limit of their claims, since the claim lease is longer than that limit.
   */
  lemma NoTwoWorkersOverlap(env: Env, steps: seq<Step>, m: nat, n: nat)
    requires ValidRun(env, Started(), steps)
    requires var s := End(env, Started(), steps);
             && m in s.workers && n in s.workers && m != n && s.workers[m].workId == s.workers[n].workId
             && InsideClaim(s.workers[m]) && InsideClaim(s.workers[n])
    ensures var s := End(env, Started(), steps);
            !WithinReplicaLimit(s, s.workers[m]) || !WithinReplicaLimit(s, s.workers[n])
  {
    RunKeepsInv(env, Started(), steps);
    var s := End(env, Started(), steps);
    assert Lapsed(s, s.workers[m]) || Lapsed(s, s.workers[n]);
  }

  // ---- Terminal agreement ----

  /**
   * A worker reports completed, or a permanent failure with a code, only when its work ended that
   * way; while the record lasts, its status says the same.
   */
  lemma ReportsAreTruthful(env: Env, steps: seq<Step>, n: nat)
    requires ValidRun(env, Started(), steps) && n in End(env, Started(), steps).workers
    requires End(env, Started(), steps).workers[n].pc.Returned?
    requires ReportsEnd(End(env, Started(), steps).workers[n].pc.report)
    ensures var s := End(env, Started(), steps); var w := s.workers[n];
            && w.workId in s.outcomes
            && SettledResult(s.outcomes[w.workId].status, s.outcomes[w.workId].code) == w.pc.report
            && (w.workId in s.st.records ==> s.st.records[w.workId].status == s.outcomes[w.workId].status)
  {
    RunKeepsInv(env, Started(), steps);
    var s := End(env, Started(), steps);
    assert WorkerOk(s, n, s.workers[n]);
  }

  /** Every report of one work to its requester's job carries the same update. */
  lemma OneUpdatePerWork(env: Env, steps: seq<Step>, i: nat, j: nat)
    requires ValidRun(env, Started(), steps)
    requires i < |End(env, Started(), steps).told| && j < |End(env, Started(), steps).told|
    requires End(env, Started(), steps).told[i].workId == End(env, Started(), steps).told[j].workId
    ensures End(env, Started(), steps).told[i].update == End(env, Started(), steps).told[j].update
  {
    RunKeepsInv(env, Started(), steps);
  }

  /** One redelivered message whose calls all answer, with nothing in between. */
  function Redelivery(n: nat, id: WorkId, token: Token, at: Time): seq<Step> {
    [Deliver(n, id), StoreCall(n, at, token, None, Answered), TellJob(n, at, Answered),
     StoreCall(n, at, token, None, Answered)]
  }

  /** The job as its requester sees it matches the way the work ended. */
  predicate JobShows(j: Jobs.Job, update: Update) {
    match update
    case JobCompleted(result) => j.status == Jobs.Completed && j.result == Some(result)
    case JobFailed(code) => j.status == Jobs.Failed && j.error == Some(CodeText(code))
  }

  /** The update a redelivery of this record has to report. */
  function DueUpdate(s: Sys, id: WorkId, at: Time): Option<Update>
    requires id in s.st.records
  {
    if Abandonable(s.st.records[id], at) then Some(JobFailed(PublicationAbandoned))
    else if id in s.outcomes then s.outcomes[id].update
    else None
  }

  /** In every reachable state an unreported end is still waiting in its record. */
  lemma DueIsPending(s: Sys, id: WorkId)
    requires Inv(s) && id in s.st.records && DueUpdate(s, id, s.now).Some?
    requires s.st.records[id].jobId in s.jobs
    requires var j := s.jobs[s.st.records[id].jobId]; j.status == Jobs.Pending && j.expiresAt > s.now
    ensures Abandonable(s.st.records[id], s.now) ||
            (Terminal(s.st.records[id]) && s.st.records[id].pendingJobUpdate == DueUpdate(s, id, s.now))
  {
  }

  /** The claim of a redelivered message finds the end and goes on to report it. */
  lemma ClaimFindsEnd(env: Env, s: Sys, n: nat, id: WorkId, token: Token)
    requires n in s.workers && s.workers[n] == Worker(id, None, None, Claiming)
    requires id in s.st.records && s.st.records[id].expiresAt > s.now && DueUpdate(s, id, s.now).Some?
    requires Abandonable(s.st.records[id], s.now) ||
             (Terminal(s.st.records[id]) && s.st.records[id].pendingJobUpdate == DueUpdate(s, id, s.now))
    ensures var v := s.st.records[id];
            var op := Claim(id, token, CLAIM_LEASE_MS);
            var u := EndedRecord(v, s.now);
            && Apply(s.st.records, op, s.now)[id := u] == Apply(s.st.records, op, s.now)
            && Terminal(u) && u.pendingJobUpdate == DueUpdate(s, id, s.now) && u.jobId == v.jobId
            && AfterAnswer(env, s.workers[n], s.st.records, op, s.now)
               == Worker(id, None, None, Telling(v.jobId, DueUpdate(s, id, s.now).value,
                                                 SettledResult(u.status, u.failureCode), TransientRetry(WorkerFailed)))
  {
  }

  lemma TellingShows(jobs: Jobs.JobMap, jobId: Jobs.JobId, update: Update, at: Time)
    requires jobId in jobs && jobs[jobId].status == Jobs.Pending && jobs[jobId].expiresAt > at
    ensures jobId in Jobs.ApplyJob(jobs, JobOpOf(jobId, update), at)
    ensures JobShows(Jobs.ApplyJob(jobs, JobOpOf(jobId, update), at)[jobId], update)
  {
    if update.JobFailed? {
      assert CodeText(update.error)[0] != Jobs.EXECUTION_UNCERTAIN[0] ||
             CodeText(update.error)[1] != Jobs.EXECUTION_UNCERTAIN[1];
    }
  }

  lemma {:induction false} OneStep(env: Env, s: Sys, step: Step, rest: seq<Step>)
    requires Enabled(env, s, step) && ValidRun(env, Next(env, s, step), rest)
    ensures ValidRun(env, s, [step] + rest)
    ensures End(env, s, [step] + rest) == End(env, Next(env, s, step), rest)
  {
    assert ([step] + rest)[1..] == rest;
  }

  /** The record of this work, once it has ended, and the job report it owes. */
  function EndedRecord(v: Work, at: Time): Work {
    if Terminal(v) then v else Ended(v, Fail(PublicationAbandoned), at)
  }

  // The three calls of a run that finds its work ended.

  lemma ClaimLeg(env: Env, s: Sys, n: nat, id: WorkId, token: Token)
    requires n in s.workers && s.workers[n] == Worker(id, None, None, Claiming) && token !in s.st.tokens
    requires id in s.st.records && s.st.records[id].expiresAt > s.now && DueUpdate(s, id, s.now).Some?
    requires Abandonable(s.st.records[id], s.now) ||
             (Terminal(s.st.records[id]) && s.st.records[id].pendingJobUpdate == DueUpdate(s, id, s.now))
    ensures var c := StoreCall(n, s.now, token, None, Answered);
            var v := s.st.records[id];
            var u := EndedRecord(v, s.now);
            && Enabled(env, s, c)
            && var t := Next(env, s, c);
               && t.jobs == s.jobs && t.now == s.now && id in t.st.records && t.st.records[id] == u
               && n in t.workers
               && t.workers[n] == Worker(id, None, None, Telling(v.jobId, DueUpdate(s, id, s.now).value,
                                                                 SettledResult(u.status, u.failureCode),
                                                                 TransientRetry(WorkerFailed)))
  {
    ClaimFindsEnd(env, s, n, id, token);
  }

  lemma TellLeg(env: Env, s: Sys, n: nat)
    requires n in s.workers && s.workers[n].pc.Telling?
    ensures var tell := TellJob(n, s.now, Answered);
            var pc := s.workers[n].pc;
            && Enabled(env, s, tell)
            && var t := Next(env, s, tell);
               && t.jobs == Jobs.ApplyJob(s.jobs, JobOpOf(pc.jobId, pc.update), s.now) && t.now == s.now && t.st == s.st
               && n in t.workers && t.workers[n] == s.workers[n].(pc := Clearing(pc.jobId, pc.done, pc.onError))
  {
  }

  lemma ClearLeg(env: Env, s: Sys, n: nat, token: Token)
    requires n in s.workers && s.workers[n].pc.Clearing? && s.workers[n].workId in s.st.records
    requires Terminal(s.st.records[s.workers[n].workId])
    ensures var c := StoreCall(n, s.now, token, None, Answered);
            && Enabled(env, s, c)
            && var t := Next(env, s, c); var id := s.workers[n].workId;
               && t.jobs == s.jobs
               && id in t.st.records && t.st.records[id] == s.st.records[id].(pendingJobUpdate := None)
               && n in t.workers && t.workers[n].pc == Returned(s.workers[n].pc.done)
  {
  }

  lemma RedeliveredRun(env: Env, s: Sys, n: nat, id: WorkId, token: Token, c: Step, tell: Step)
    requires n in s.workers && s.workers[n] == Worker(id, None, None, Claiming) && token !in s.st.tokens
    requires id in s.st.records && s.st.records[id].expiresAt > s.now && DueUpdate(s, id, s.now).Some?
    requires Abandonable(s.st.records[id], s.now) ||
             (Terminal(s.st.records[id]) && s.st.records[id].pendingJobUpdate == DueUpdate(s, id, s.now))
    requires c == StoreCall(n, s.now, token, None, Answered) && tell == TellJob(n, s.now, Answered)
    ensures ValidRun(env, s, [c] + ([tell] + ([c] + [])))
    ensures var t := End(env, s, [c] + ([tell] + ([c] + [])));
            var v := s.st.records[id];
            var u := EndedRecord(v, s.now);
            && t.jobs == Jobs.ApplyJob(s.jobs, JobOpOf(v.jobId, DueUpdate(s, id, s.now).value), s.now)
            && n in t.workers && t.workers[n].pc == Returned(SettledResult(u.status, u.failureCode))
            && id in t.st.records && t.st.records[id] == u.(pendingJobUpdate := None)
  {
    ClaimLeg(env, s, n, id, token);
    var s2 := Next(env, s, c);
    TellLeg(env, s2, n);
    var s3 := Next(env, s2, tell);
    ClearLeg(env, s3, n, token);
    OneStep(env, s3, c, []);
    OneStep(env, s2, tell, [c] + []);
    OneStep(env, s, c, [tell] + ([c] + []));
  }

  /** s has an ended work whose report is still due, and a job that waits for it. */
  ghost predicate ReportDue(s: Sys, id: WorkId) {
    && id in s.st.records && s.st.records[id].expiresAt > s.now && DueUpdate(s, id, s.now).Some?
    && s.st.records[id].jobId in s.jobs
    && s.jobs[s.st.records[id].jobId].status == Jobs.Pending
    && s.jobs[s.st.records[id].jobId].expiresAt > s.now
  }

  /** t is s after the work's own outcome has been reported, by the run n, and nothing is owed. */
  ghost predicate Agrees(s: Sys, t: Sys, id: WorkId, n: nat)
    requires id in s.st.records && DueUpdate(s, id, s.now).Some?
  {
    && s.st.records[id].jobId in t.jobs
    && JobShows(t.jobs[s.st.records[id].jobId], DueUpdate(s, id, s.now).value)
    && id in t.st.records && Terminal(t.st.records[id]) && t.st.records[id].pendingJobUpdate.None?
    && n in t.workers
    && t.workers[n].pc == Returned(SettledResult(t.st.records[id].status, t.st.records[id].failureCode))
  }

  lemma RedeliverySteps(n: nat, id: WorkId, token: Token, at: Time, c: Step, tell: Step)
    requires c == StoreCall(n, at, token, None, Answered) && tell == TellJob(n, at, Answered)
    ensures Redelivery(n, id, token, at) == [Deliver(n, id)] + ([c] + ([tell] + ([c] + [])))
  {
  }

  lemma RedeliveryFrom(env: Env, s: Sys, n: nat, id: WorkId, token: Token)
    requires ReportDue(s, id) && n !in s.workers && token !in s.st.tokens
    requires Abandonable(s.st.records[id], s.now) ||
             (Terminal(s.st.records[id]) && s.st.records[id].pendingJobUpdate == DueUpdate(s, id, s.now))
    ensures ValidRun(env, s, Redelivery(n, id, token, s.now))
    ensures Agrees(s, End(env, s, Redelivery(n, id, token, s.now)), id, n)
  {
    var s1 := Next(env, s, Deliver(n, id));
    var c, tell := StoreCall(n, s.now, token, None, Answered), TellJob(n, s.now, Answered);
    RedeliveredRun(env, s1, n, id, token, c, tell);
    OneStep(env, s, Deliver(n, id), [c] + ([tell] + ([c] + [])));
    RedeliverySteps(n, id, token, s.now, c, tell);
    TellingShows(s.jobs, s.st.records[id].jobId, DueUpdate(s, id, s.now).value, s.now);
  }

  /**
   * Terminal agreement: wherever earlier runs crashed between the terminal transition, the job
   * update and its clearing, one uninterrupted redelivery leaves a still pending, unexpired job
   * with the work's own outcome, reports that outcome, and clears the pending update. A lapsed
   * publication is ended as abandoned on the way.
   */
  lemma RedeliveryAgrees(env: Env, steps: seq<Step>, n: nat, id: WorkId, token: Token)
    requires ValidRun(env, Started(), steps)
    requires var s := End(env, Started(), steps); ReportDue(s, id) && n !in s.workers && token !in s.st.tokens
    ensures var s := End(env, Started(), steps);
            && ValidRun(env, s, Redelivery(n, id, token, s.now))
            && Agrees(s, End(env, s, Redelivery(n, id, token, s.now)), id, n)
  {
    var s := End(env, Started(), steps);
    RunKeepsInv(env, Started(), steps);
    DueIsPending(s, id);
    RedeliveryFrom(env, s, n, id, token);
  }
}
