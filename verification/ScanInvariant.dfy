/**
 * The inductive invariant of the scan protocol, proved step by step: what the records and the
 * histories share, what every worker may rely on wherever it is suspended, and why no operation of
 * another worker disturbs it.
 */
module ScanInvariant {
  import opened Basics
  import opened ScanWork
  import opened ScanWorker
  import opened ScanWorkStore
  import opened ScanProtocol
  import Jobs

  // ---- What holds of the records and the histories ----

  ghost predicate StoreOk(s: Sys) {
    && Consistent(s.st)
    && s.jobs.Keys <= s.jobIds
    && (forall id :: id in s.st.records ==> s.st.records[id].jobId in s.jobIds)
  }

  /** The persisted descriptor of a work is written once. */
  ghost predicate DescriptorsOk(s: Sys) {
    && s.descriptors.Keys <= s.st.created
    && (forall id :: id in s.st.records ==>
          s.st.records[id].uploadDescriptor == if id in s.descriptors then Some(s.descriptors[id]) else None)
  }

  ghost predicate BegunOk(s: Sys) {
    && s.begun.Keys <= s.st.created
    && (forall id :: id in s.begun && id in s.st.records ==>
          s.st.records[id].status == Publishing || Terminal(s.st.records[id]))
  }

  ghost predicate OutcomesOk(s: Sys) {
    && s.outcomes.Keys <= s.st.created
    && (forall id :: id in s.st.records ==> (id in s.outcomes <==> Terminal(s.st.records[id])))
    && (forall id :: id in s.st.records && id in s.outcomes ==>
          && s.outcomes[id].status == s.st.records[id].status
          && s.outcomes[id].code == s.st.records[id].failureCode
          && (s.st.records[id].pendingJobUpdate.Some? ==> s.outcomes[id].update == s.st.records[id].pendingJobUpdate))
  }

  /** The job needs no report any more. */
  predicate JobDone(s: Sys, jobId: Jobs.JobId) {
    jobId in s.jobIds &&
    (jobId in s.jobs ==> s.jobs[jobId].status != Jobs.Pending || s.jobs[jobId].expiresAt <= s.now)
  }

  /** A terminal update is still stored until the requester's job has been told. */
  ghost predicate ReportsOk(s: Sys) {
    && (forall id :: (id in s.st.records && id in s.outcomes && s.outcomes[id].update.Some? &&
                      s.st.records[id].pendingJobUpdate.None?) ==> JobDone(s, s.st.records[id].jobId))
    && (forall i :: 0 <= i < |s.told| ==>
          s.told[i].workId in s.outcomes && s.outcomes[s.told[i].workId].update == Some(s.told[i].update))
  }

  ghost predicate PublicationsOk(s: Sys) {
    && (forall i, j :: 0 <= i < j < |s.publications| ==> s.publications[i].workId != s.publications[j].workId)
    && (forall i :: 0 <= i < |s.publications| ==> PublicationOk(s, s.publications[i]))
  }

  ghost predicate PublicationOk(s: Sys, p: Publication) {
    && p.workId in s.begun && s.begun[p.workId] == p.worker
    && p.worker in s.workers && s.workers[p.worker].workId == p.workId
    && p.workId in s.descriptors && MatchesDescriptor(p.resource, s.descriptors[p.workId])
    && CleanVerdict(p.asset) && MatchesAssetRecord(p.asset, s.descriptors[p.workId])
  }

  // ---- What holds of each worker ----

  ghost predicate HeldOk(s: Sys, w: Worker) {
    && (w.work.None? ==> w.pc.Claiming? || w.pc.Telling? || w.pc.Clearing? || w.pc.Returned? || w.pc.Crashed?)
    && (w.work.Some? ==>
          var v := w.work.value;
          && !w.pc.Claiming?
          && v.id == w.workId && v.id in s.st.created
          && v.claimId.Some? && v.claimId.value in s.st.tokens && v.claimedAt.Some?)
  }

  ghost predicate DescriptorOk(s: Sys, w: Worker) {
    && (UsesDescriptor(w.pc) ==>
          w.descriptor.Some? && w.workId in s.descriptors && s.descriptors[w.workId] == w.descriptor.value)
    && (w.pc.RecordingDescriptor? ==> w.descriptor == Some(DescriptorOf(w.pc.resource)))
    && (w.pc.Granting? || w.pc.Downloading? || w.pc.Beginning? || w.pc.Calling? ==>
          CleanVerdict(w.pc.asset) && w.descriptor.Some? && MatchesAssetRecord(w.pc.asset, w.descriptor.value))
    && (w.pc.Beginning? || w.pc.Calling? ==>
          w.descriptor.Some? && MatchesDescriptor(w.pc.resource, w.descriptor.value))
  }

  /** Only the worker that began publishing is about to call, and nobody has called before. */
  ghost predicate CallingOk(s: Sys, n: nat, w: Worker) {
    w.pc.Calling? ==>
      && w.workId in s.begun && s.begun[w.workId] == n
      && (forall i :: 0 <= i < |s.publications| ==> s.publications[i].workId != w.workId)
  }

  predicate ReportsEnd(r: Result) {
    r.WorkCompleted? || r.PermanentFailure?
  }

  /** A worker that reports an end reports how the work ended. */
  ghost predicate Truthful(s: Sys, id: WorkId, r: Result) {
    ReportsEnd(r) ==> id in s.outcomes && SettledResult(s.outcomes[id].status, s.outcomes[id].code) == r
  }

  ghost predicate ReportOk(s: Sys, w: Worker) {
    && (w.pc.Telling? || w.pc.Clearing? ==>
          && w.workId in s.outcomes && w.pc.jobId in s.jobIds
          && Truthful(s, w.workId, w.pc.done) && !ReportsEnd(w.pc.onError)
          && (w.workId in s.st.records ==> s.st.records[w.workId].jobId == w.pc.jobId))
    && (w.pc.Telling? ==> s.outcomes[w.workId].update == Some(w.pc.update))
    && (w.pc.Clearing? ==> JobDone(s, w.pc.jobId))
    && (w.pc.Returned? ==> Truthful(s, w.workId, w.pc.report))
    && (w.pc.Releasing? ==> !ReportsEnd(w.pc.report))
  }

  predicate Lapsed(s: Sys, w: Worker) {
    w.work.Some? && w.work.value.claimedAt.Some? && w.work.value.claimedAt.value + CLAIM_LEASE_MS <= s.now
  }

  /** The record, if any is left, is still the one this worker claimed, or has ended. */
  ghost predicate Holds(s: Sys, w: Worker)
    requires w.work.Some? && w.work.value.claimedAt.Some?
  {
    w.workId in s.st.records ==>
      var v := s.st.records[w.workId];
      || Terminal(v)
      || (v.claimId == w.work.value.claimId &&
          (v.status == Publishing ||
           (v.status == Claimed && v.claimExpiresAt == Some(w.work.value.claimedAt.value + CLAIM_LEASE_MS))))
  }

  ghost predicate LeaseOk(s: Sys, w: Worker) {
    InsideClaim(w) && w.work.value.claimedAt.Some? ==> Lapsed(s, w) || Holds(s, w)
  }

  ghost predicate WorkerOk(s: Sys, n: nat, w: Worker) {
    HeldOk(s, w) && DescriptorOk(s, w) && CallingOk(s, n, w) && ReportOk(s, w) && LeaseOk(s, w)
  }

  /** No two runs ever got the same token. */
  ghost predicate TokensDistinct(s: Sys) {
    forall m, n :: m in s.workers && n in s.workers && m != n &&
                   s.workers[m].work.Some? && s.workers[n].work.Some? ==>
      s.workers[m].work.value.claimId != s.workers[n].work.value.claimId
  }

  /** Two runs inside a claim of one work: the lease of one of them has lapsed. */
  ghost predicate NoOverlap(s: Sys) {
    forall m, n :: m in s.workers && n in s.workers && m != n && s.workers[m].workId == s.workers[n].workId &&
                   InsideClaim(s.workers[m]) && InsideClaim(s.workers[n]) ==>
      Lapsed(s, s.workers[m]) || Lapsed(s, s.workers[n])
  }

  ghost predicate GlobalOk(s: Sys) {
    StoreOk(s) && DescriptorsOk(s) && BegunOk(s) && OutcomesOk(s) && ReportsOk(s)
  }

  ghost predicate WorkersOk(s: Sys) {
    forall n :: n in s.workers ==> WorkerOk(s, n, s.workers[n])
  }

  ghost predicate Inv(s: Sys) {
    GlobalOk(s) && PublicationsOk(s) && WorkersOk(s) && TokensDistinct(s) && NoOverlap(s)
  }

  // ---- A store operation keeps the records and histories in step ----

  /** What every accepted operation means for one record. */
  lemma StepFacts(w: Work, op: Op, at: Time)
    requires NextWork(w, op, at).Some?
    ensures var v := NextWork(w, op, at).value;
            && Evolves(w, v)
            && v.uploadDescriptor == (if op.RecordDescriptor? then Some(op.descriptor) else w.uploadDescriptor)
            && (op.BeginPublishing? ==> w.status == Claimed && v.status == Publishing)
            && (Terminal(w) ==> op.ClearUpdate?)
  {
  }

  lemma DescriptorsPut(s: Sys, t: Sys, id: WorkId, v: Work)
    requires DescriptorsOk(s) && id in s.st.created
    requires t.st.records == s.st.records[id := v] && t.st.created >= s.st.created
    requires t.descriptors == if v.uploadDescriptor.Some? then s.descriptors[id := v.uploadDescriptor.value]
                              else s.descriptors
    requires v.uploadDescriptor.None? ==> id !in s.descriptors
    ensures DescriptorsOk(t)
  {
  }

  lemma EffectDescriptors(s: Sys, actor: nat, e: Event)
    requires StoreOk(s) && DescriptorsOk(s) && Legal(s.st, e)
    ensures DescriptorsOk(Effect(s, actor, e))
    ensures forall id :: id in s.descriptors ==>
      id in Effect(s, actor, e).descriptors && Effect(s, actor, e).descriptors[id] == s.descriptors[id]
  {
    if Accepts(s.st.records, e.op, e.at) {
      var id := e.op.Id();
      var v := NextWork(s.st.records[id], e.op, e.at).value;
      StepFacts(s.st.records[id], e.op, e.at);
      var t := Effect(s, actor, e);
      assert t.descriptors == if v.uploadDescriptor.Some? then s.descriptors[id := v.uploadDescriptor.value]
                              else s.descriptors;
      DescriptorsPut(s, t, id, v);
    }
  }

  lemma EffectBegun(s: Sys, actor: nat, e: Event)
    requires StoreOk(s) && BegunOk(s) && Legal(s.st, e)
    ensures BegunOk(Effect(s, actor, e))
    ensures forall id :: id in s.begun ==>
              id in Effect(s, actor, e).begun && Effect(s, actor, e).begun[id] == s.begun[id]
  {
    if Accepts(s.st.records, e.op, e.at) {
      StepFacts(s.st.records[e.op.Id()], e.op, e.at);
    }
  }

  lemma OutcomesPut(s: Sys, t: Sys, id: WorkId, v: Work)
    requires OutcomesOk(s) && id in s.st.records && id in s.st.created
    requires Evolves(s.st.records[id], v)
    requires t.st.records == s.st.records[id := v] && t.st.created >= s.st.created
    requires t.outcomes == if !Terminal(s.st.records[id]) && Terminal(v) then s.outcomes[id := OutcomeOf(v)]
                           else s.outcomes
    ensures OutcomesOk(t)
    ensures forall k :: k in s.outcomes ==> k in t.outcomes && t.outcomes[k] == s.outcomes[k]
  {
  }

  lemma EffectOutcomes(s: Sys, actor: nat, e: Event)
    requires StoreOk(s) && OutcomesOk(s) && Legal(s.st, e)
    ensures OutcomesOk(Effect(s, actor, e))
    ensures forall id :: id in s.outcomes ==>
      id in Effect(s, actor, e).outcomes && Effect(s, actor, e).outcomes[id] == s.outcomes[id]
  {
    if Accepts(s.st.records, e.op, e.at) {
      var id := e.op.Id();
      StepFacts(s.st.records[id], e.op, e.at);
      OutcomesPut(s, Effect(s, actor, e), id, NextWork(s.st.records[id], e.op, e.at).value);
    }
  }

  /** A pending update may be cleared only when the job was told. */
  ghost predicate ClearsAfterTelling(s: Sys, e: Event) {
    e.op.ClearUpdate? && e.op.id in s.st.records ==> JobDone(s, s.st.records[e.op.id].jobId)
  }

  lemma ReportsPut(s: Sys, t: Sys, id: WorkId, v: Work)
    requires OutcomesOk(s) && ReportsOk(s) && OutcomesOk(t) && id in s.st.records
    requires Evolves(s.st.records[id], v)
    requires Terminal(s.st.records[id]) ==> JobDone(s, v.jobId)
    requires t.st.records == s.st.records[id := v]
    requires !Terminal(s.st.records[id]) && Terminal(v) ==>
               id in t.outcomes && t.outcomes[id].update == v.pendingJobUpdate
    requires (t.now, t.jobs, t.jobIds, t.told) == (s.now, s.jobs, s.jobIds, s.told)
    requires forall k :: k in s.outcomes ==> k in t.outcomes && t.outcomes[k] == s.outcomes[k]
    requires forall k :: k in t.outcomes && k !in s.outcomes ==> k == id
    ensures ReportsOk(t)
  {
  }

  lemma EffectReports(s: Sys, actor: nat, e: Event)
    requires StoreOk(s) && OutcomesOk(s) && ReportsOk(s) && Legal(s.st, e) && ClearsAfterTelling(s, e)
    ensures ReportsOk(Effect(s, actor, e))
  {
    EffectOutcomes(s, actor, e);
    if Accepts(s.st.records, e.op, e.at) {
      var id := e.op.Id();
      StepFacts(s.st.records[id], e.op, e.at);
      ReportsPut(s, Effect(s, actor, e), id, NextWork(s.st.records[id], e.op, e.at).value);
    }
  }

  lemma EffectStore(s: Sys, actor: nat, e: Event)
    requires StoreOk(s) && Legal(s.st, e) && (e.op.Create? ==> e.op.work.jobId in s.jobIds)
    ensures StoreOk(Effect(s, actor, e))
  {
    AfterConsistent(s.st, e);
    if Accepts(s.st.records, e.op, e.at) {
      StepFacts(s.st.records[e.op.Id()], e.op, e.at);
    }
  }

  lemma EffectGlobal(s: Sys, actor: nat, e: Event)
    requires GlobalOk(s) && Legal(s.st, e) && ClearsAfterTelling(s, e)
    requires e.op.Create? ==> e.op.work.jobId in s.jobIds
    ensures GlobalOk(Effect(s, actor, e))
  {
    EffectStore(s, actor, e);
    EffectDescriptors(s, actor, e);
    EffectBegun(s, actor, e);
    EffectOutcomes(s, actor, e);
    EffectReports(s, actor, e);
  }

  // ---- A store operation does not disturb the other workers ----

  /** A worker's hold on a record survives every operation made without its token. */
  lemma HoldSurvives(v: Work, op: Op, at: Time, token: Token, until: Time)
    requires NextWork(v, op, at).Some?
    requires op.IsTokenOp() ==> op.token != token
    requires v.claimId == Some(token)
    requires v.status == Publishing || (v.status == Claimed && v.claimExpiresAt == Some(until))
    ensures var u := NextWork(v, op, at).value;
            || Terminal(u)
            || (u.claimId == Some(token) &&
                (u.status == Publishing || (u.status == Claimed && u.claimExpiresAt == Some(until))))
            || until <= at
  {
  }

  /** A known record that is still there is the old one, or what the operation made of it. */
  lemma RecordAfter(st: Store, e: Event, id: WorkId)
    requires Consistent(st) && Legal(st, e) && id in st.created && id in After(st, e).records
    ensures id in st.records
    ensures After(st, e).records[id] != st.records[id] ==>
              e.op.Id() == id && NextWork(st.records[id], e.op, e.at) == Some(After(st, e).records[id])
  {
  }

  lemma EffectKeepsLease(s: Sys, actor: nat, e: Event, w: Worker)
    requires StoreOk(s) && Legal(s.st, e) && e.at <= s.now && HeldOk(s, w) && LeaseOk(s, w)
    requires w.work.Some? && e.op.IsTokenOp() ==> w.work.value.claimId != Some(e.op.token)
    ensures LeaseOk(Effect(s, actor, e), w)
  {
    if InsideClaim(w) && !Lapsed(s, w) && w.workId in After(s.st, e).records {
      RecordAfter(s.st, e, w.workId);
      var v, u := s.st.records[w.workId], After(s.st, e).records[w.workId];
      assert Holds(s, w);
      if u != v && !Terminal(v) {
        HoldSurvives(v, e.op, e.at, w.work.value.claimId.value, w.work.value.claimedAt.value + CLAIM_LEASE_MS);
      } else if u != v {
        StepFacts(v, e.op, e.at);
      }
      assert Holds(Effect(s, actor, e), w);
    }
  }

  lemma EffectKeepsReport(s: Sys, actor: nat, e: Event, w: Worker)
    requires GlobalOk(s) && Legal(s.st, e) && ReportOk(s, w)
    ensures ReportOk(Effect(s, actor, e), w)
  {
    EffectOutcomes(s, actor, e);
    if Accepts(s.st.records, e.op, e.at) {
      StepFacts(s.st.records[e.op.Id()], e.op, e.at);
    }
  }

  lemma EffectKeepsWorker(s: Sys, actor: nat, e: Event, n: nat, w: Worker)
    requires GlobalOk(s) && Legal(s.st, e) && e.at <= s.now && WorkerOk(s, n, w)
    requires w.work.Some? && e.op.IsTokenOp() ==> w.work.value.claimId != Some(e.op.token)
    ensures WorkerOk(Effect(s, actor, e), n, w)
  {
    EffectKeepsLease(s, actor, e, w);
    EffectKeepsReport(s, actor, e, w);
    EffectDescriptors(s, actor, e);
    EffectBegun(s, actor, e);
  }

  // ---- The worker that moves ----

  /** A worker that finds or makes its work terminal goes on to report it. */
  lemma ReconcileOk(t: Sys, n: nat, w: Worker, v: Work, done: Result, onError: Result)
    requires HeldOk(t, w) && w.workId in t.st.records && t.st.records[w.workId] == v && Terminal(v)
    requires v.jobId in t.jobIds && w.workId in t.outcomes
    requires v.pendingJobUpdate.Some? ==> t.outcomes[w.workId].update == v.pendingJobUpdate
    requires Truthful(t, w.workId, done) && !ReportsEnd(onError)
    ensures WorkerOk(t, n, w.(pc := Reconcile(v, done, onError)))
  {
    var x := w.(pc := Reconcile(v, done, onError));
    assert x.work.Some? && x.work.value.claimedAt.Some? ==> Holds(t, x);
  }

  /** A granted claim starts a run that holds the record it was given. */
  lemma GrantedOk(env: Env, t: Sys, n: nat, v: Work, token: Token, at: Time)
    requires StoreOk(t) && DescriptorsOk(t) && v.id in t.st.records && t.st.records[v.id] == v && v.status == Claimed
    requires v.claimId == Some(token) && token in t.st.tokens && v.claimedAt == Some(at)
    requires v.claimExpiresAt == Some(at + CLAIM_LEASE_MS)
    ensures WorkerOk(t, n, Worker(v.id, Some(v), v.uploadDescriptor, AfterClaim(env, v)))
  {
    var w := Worker(v.id, Some(v), v.uploadDescriptor, AfterClaim(env, v));
    assert Holds(t, w);
  }

  /** What claimForProcessing answers is what the records then hold. */
  lemma AnswerFacts(r: Records, op: Op, at: Time)
    requires op.Claim? && (op.id in r ==> r[op.id].id == op.id)
    ensures match Answer(r, op.id, op.token, op.leaseMs, at)
            case Settled(status, code) =>
              op.id in Apply(r, op, at) && Terminal(Apply(r, op, at)[op.id]) &&
              Apply(r, op, at)[op.id].status == status && Apply(r, op, at)[op.id].failureCode == code
            case Granted(work) =>
              op.id in Apply(r, op, at) && Apply(r, op, at)[op.id] == work && work.id == op.id &&
              work.status == Claimed && work.claimId == Some(op.token) && work.claimedAt == Some(at) &&
              work.claimExpiresAt == Some(at + op.leaseMs)
            case _ => true
  {
  }

  lemma TerminalFacts(t: Sys, id: WorkId)
    requires StoreOk(t) && OutcomesOk(t) && id in t.st.records && Terminal(t.st.records[id])
    ensures var v := t.st.records[id];
            && v.jobId in t.jobIds && id in t.outcomes
            && (v.pendingJobUpdate.Some? ==> t.outcomes[id].update == v.pendingJobUpdate)
            && Truthful(t, id, SettledResult(v.status, v.failureCode))
  {
  }

  lemma ClaimWorker(env: Env, t: Sys, n: nat, w: Worker, r: Records, op: Op, at: Time)
    requires StoreOk(t) && OutcomesOk(t) && DescriptorsOk(t) && HeldOk(t, w) && w.pc.Claiming?
    requires t.st.records == Apply(r, op, at) && (op.Id() in r ==> r[op.Id()].id == op.Id())
    requires op.Claim? && op == Claim(w.workId, op.token, CLAIM_LEASE_MS) && op.token in t.st.tokens
    ensures var x := AfterAnswer(env, w, r, op, at);
            WorkerOk(t, n, x) && (x.work.Some? ==> x.work.value.claimId == Some(op.token))
  {
    AnswerFacts(r, op, at);
    match Answer(r, op.id, op.token, op.leaseMs, at)
    case Missing =>
    case Active =>
    case Settled(status, code) =>
      TerminalFacts(t, op.id);
      ReconcileOk(t, n, w, t.st.records[op.id], SettledResult(status, code), TransientRetry(WorkerFailed));
    case Granted(work) =>
      GrantedOk(env, t, n, work, op.token, at);
  }

  lemma EndingWorker(t: Sys, n: nat, w: Worker, r: Records, op: Op, at: Time)
    requires StoreOk(t) && OutcomesOk(t) && HeldOk(t, w) && t.st.records == Apply(r, op, at)
    requires w.pc.Completing? || w.pc.Failing?
    requires op.Finish? && op.id == w.workId && Accepts(r, op, at)
    requires op.ending == if w.pc.Completing? then Complete(w.pc.result) else Fail(w.pc.code)
    ensures WorkerOk(t, n, w.(pc := Reconcile(t.st.records[w.workId],
              if w.pc.Completing? then WorkCompleted else PermanentFailure(w.pc.code),
              if w.pc.Completing? then Contention else TransientRetry(WorkerFailed))))
  {
    var v := t.st.records[w.workId];
    assert v == Ended(r[w.workId], op.ending, at);
    TerminalFacts(t, w.workId);
    ReconcileOk(t, n, w, v, SettledResult(v.status, v.failureCode),
                if w.pc.Completing? then Contention else TransientRetry(WorkerFailed));
  }

  lemma EndingAnswer(env: Env, w: Worker, r: Records, op: Op, at: Time)
    requires w.pc.Completing? || w.pc.Failing?
    requires Asks(w, op)
    ensures op.Finish? && op.id == w.workId
    ensures op.ending == if w.pc.Completing? then Complete(w.pc.result) else Fail(w.pc.code)
    ensures AfterAnswer(env, w, r, op, at) ==
            w.(pc := if Accepts(r, op, at)
                     then Reconcile(Apply(r, op, at)[w.workId],
                                    if w.pc.Completing? then WorkCompleted else PermanentFailure(w.pc.code),
                                    if w.pc.Completing? then Contention else TransientRetry(WorkerFailed))
                     else Returned(Contention))
  {
  }

  /** Recording and beginning to publish keep the claim they are made under. */
  lemma ClaimKept(v: Work, op: Op, at: Time)
    requires op.RecordDescriptor? || op.RecordAsset? || op.BeginPublishing?
    requires NextWork(v, op, at).Some?
    ensures var u := NextWork(v, op, at).value;
            && v.status == Claimed && u.claimId == v.claimId
            && (u.status == Publishing || (u.status == Claimed && u.claimExpiresAt == v.claimExpiresAt))
  {
  }

  /** The worker after such a step, from what the step did to its record and to the histories. */
  lemma ClaimStepWorker(s: Sys, t: Sys, n: nat, w: Worker, x: Worker, v: Work, u: Work)
    requires HeldOk(s, w) && DescriptorOk(s, w) && LeaseOk(s, w) && InsideClaim(w)
    requires x.workId == w.workId && x.work == w.work && x.descriptor == w.descriptor
    requires x.pc.CreatingUpload? || x.pc.Waiting? || x.pc.Calling?
    requires t.now == s.now && s.st.created <= t.st.created && s.st.tokens <= t.st.tokens
    requires w.workId in s.st.records && s.st.records[w.workId] == v && v.status == Claimed
    requires w.workId in t.st.records && t.st.records[w.workId] == u && u.claimId == v.claimId
    requires u.status == Publishing || (u.status == Claimed && u.claimExpiresAt == v.claimExpiresAt)
    requires w.workId in t.descriptors && w.descriptor == Some(t.descriptors[w.workId])
    requires x.pc.Calling? ==> w.pc == Beginning(x.pc.asset, x.pc.resource)
    requires CallingOk(t, n, x)
    ensures WorkerOk(t, n, x)
  {
    assert !Lapsed(t, x) ==> Holds(s, w);
  }

  // ---- Every step keeps the worker that makes it ----

  /** A worker whose beginPublishing was accepted is the first, and nothing was published yet. */
  lemma BegunOnce(s: Sys, n: nat, e: Event, x: Worker)
    requires BegunOk(s) && PublicationsOk(s) && Accepts(s.st.records, e.op, e.at)
    requires x.pc.Calling? ==> e.op.BeginPublishing? && e.op.id == x.workId
    ensures CallingOk(Effect(s, n, e), n, x)
  {
    if x.pc.Calling? {
      StepFacts(s.st.records[x.workId], e.op, e.at);
      assert x.workId !in s.begun;
    }
  }

  /** The event is this worker's own next store call. */
  predicate OwnCall(s: Sys, n: nat, e: Event) {
    n in s.workers && e.at <= s.now && Legal(s.st, e) && Asks(s.workers[n], e.op)
  }

  lemma ClaimAnswered(env: Env, s: Sys, n: nat, e: Event)
    requires GlobalOk(s) && OwnCall(s, n, e) && HeldOk(s, s.workers[n]) && e.op.Claim?
    ensures var x := AfterAnswer(env, s.workers[n], s.st.records, e.op, e.at);
            WorkerOk(Effect(s, n, e), n, x) && (x.work.Some? ==> x.work.value.claimId == Some(e.op.token))
  {
    EffectGlobal(s, n, e);
    ClaimWorker(env, Effect(s, n, e), n, s.workers[n], s.st.records, e.op, e.at);
  }

  lemma EndingAnswered(env: Env, s: Sys, n: nat, e: Event)
    requires GlobalOk(s) && OwnCall(s, n, e) && HeldOk(s, s.workers[n]) && e.op.Finish?
    ensures var x := AfterAnswer(env, s.workers[n], s.st.records, e.op, e.at);
            WorkerOk(Effect(s, n, e), n, x) && x.work == s.workers[n].work
  {
    var w := s.workers[n];
    EffectGlobal(s, n, e);
    EndingAnswer(env, w, s.st.records, e.op, e.at);
    if Accepts(s.st.records, e.op, e.at) {
      EndingWorker(Effect(s, n, e), n, w, s.st.records, e.op, e.at);
    }
  }

  lemma ClaimStepAnswer(env: Env, w: Worker, r: Records, op: Op, at: Time)
    requires op.RecordDescriptor? || op.RecordAsset? || op.BeginPublishing?
    requires Asks(w, op)
    ensures op.id == w.workId && InsideClaim(w)
    ensures var x := AfterAnswer(env, w, r, op, at);
            x == w.(pc := x.pc) &&
            if !Accepts(r, op, at) then x.pc == Returned(Contention)
            else match op
                 case RecordDescriptor(_, _, d) =>
                   w.pc.RecordingDescriptor? && d == DescriptorOf(w.pc.resource) && x.pc.CreatingUpload?
                 case RecordAsset(_, _, _) => w.pc.RecordingAsset? && x.pc.Waiting?
                 case _ => w.pc.Beginning? && x.pc == Calling(w.pc.asset, w.pc.resource)
  {
  }

  lemma ClaimStepRefused(env: Env, s: Sys, n: nat, e: Event)
    requires GlobalOk(s) && OwnCall(s, n, e) && HeldOk(s, s.workers[n]) && !Accepts(s.st.records, e.op, e.at)
    requires e.op.RecordDescriptor? || e.op.RecordAsset? || e.op.BeginPublishing?
    ensures var x := AfterAnswer(env, s.workers[n], s.st.records, e.op, e.at);
            WorkerOk(Effect(s, n, e), n, x) && x.work == s.workers[n].work
  {
    ClaimStepAnswer(env, s.workers[n], s.st.records, e.op, e.at);
  }

  lemma ClaimStepAnswered(env: Env, s: Sys, n: nat, e: Event)
    requires GlobalOk(s) && PublicationsOk(s) && OwnCall(s, n, e) && WorkerOk(s, n, s.workers[n])
    requires e.op.RecordDescriptor? || e.op.RecordAsset? || e.op.BeginPublishing?
    ensures var x := AfterAnswer(env, s.workers[n], s.st.records, e.op, e.at);
            WorkerOk(Effect(s, n, e), n, x) && x.work == s.workers[n].work
  {
    var w := s.workers[n];
    if Accepts(s.st.records, e.op, e.at) {
      var x := AfterAnswer(env, w, s.st.records, e.op, e.at);
      ClaimKept(s.st.records[w.workId], e.op, e.at);
      ClaimStepAnswer(env, w, s.st.records, e.op, e.at);
      BegunOnce(s, n, e, x);
      EffectDescriptors(s, n, e);
      assert x == w.(pc := x.pc);
      ClaimStepWorker(s, Effect(s, n, e), n, w, x, s.st.records[w.workId], After(s.st, e).records[w.workId]);
    } else {
      ClaimStepRefused(env, s, n, e);
    }
  }

  lemma LeavingAnswered(env: Env, s: Sys, n: nat, e: Event)
    requires GlobalOk(s) && OwnCall(s, n, e) && WorkerOk(s, n, s.workers[n])
    requires e.op.Release? || e.op.ClearUpdate?
    ensures var x := AfterAnswer(env, s.workers[n], s.st.records, e.op, e.at);
            WorkerOk(Effect(s, n, e), n, x) && x.work == s.workers[n].work
  {
    EffectKeepsReport(s, n, e, s.workers[n]);
  }

  predicate CallsOut(pc: Pc) {
    pc.Claiming? || pc.RecordingDescriptor? || pc.RecordingAsset? || pc.Beginning? || pc.Completing? || pc.Failing? ||
    pc.Releasing? || pc.Telling? || pc.Clearing?
  }

  lemma ThrownOk(s: Sys, n: nat, w: Worker, error: Error)
    requires WorkerOk(s, n, w) && CallsOut(w.pc)
    ensures WorkerOk(s, n, AfterThrow(w, error))
  {
    var x := AfterThrow(w, error);
    assert x.pc.Returned? || (x.pc == Caught(error) && InsideClaim(w));
    assert x == w.(pc := x.pc);
    assert InsideClaim(x) ==> InsideClaim(w);
  }

  /** The record of such a step is the old one, or has kept its claim. */
  lemma KeptOrSame(st: Store, e: Event, id: WorkId)
    requires Consistent(st) && Legal(st, e) && id in st.created && id in After(st, e).records
    requires e.op.RecordDescriptor? || e.op.RecordAsset? || e.op.BeginPublishing?
    ensures id in st.records
    ensures var v, u := st.records[id], After(st, e).records[id];
            u == v || (v.status == Claimed && u.claimId == v.claimId &&
                       (u.status == Publishing || (u.status == Claimed && u.claimExpiresAt == v.claimExpiresAt)))
  {
    RecordAfter(st, e, id);
    if After(st, e).records[id] != st.records[id] {
      ClaimKept(st.records[id], e.op, e.at);
    }
  }

  /** A throw out of a step under the claim goes to the handler; the claim may have moved on. */
  lemma ThrownUnderClaim(s: Sys, n: nat, e: Event, error: Error)
    requires StoreOk(s) && OwnCall(s, n, e) && HeldOk(s, s.workers[n]) && LeaseOk(s, s.workers[n])
    requires e.op.RecordDescriptor? || e.op.RecordAsset? || e.op.BeginPublishing?
    ensures LeaseOk(Effect(s, n, e), AfterThrow(s.workers[n], error))
  {
    var w := s.workers[n];
    var x := AfterThrow(w, error);
    assert x.work == w.work && x.workId == w.workId && InsideClaim(w);
    if !Lapsed(s, w) {
      assert Holds(s, w);
      if w.workId in After(s.st, e).records {
        KeptOrSame(s.st, e, w.workId);
      }
      HoldsAfter(s, Effect(s, n, e), w);
      assert Holds(Effect(s, n, e), x);
    }
  }

  lemma HoldsAfter(s: Sys, t: Sys, w: Worker)
    requires w.work.Some? && w.work.value.claimedAt.Some? && Holds(s, w)
    requires w.workId in t.st.records ==>
               && w.workId in s.st.records
               && var v, u := s.st.records[w.workId], t.st.records[w.workId];
                  u == v || (v.status == Claimed && u.claimId == v.claimId &&
                             (u.status == Publishing || (u.status == Claimed && u.claimExpiresAt == v.claimExpiresAt)))
    ensures Holds(t, w)
  {
  }

  lemma CaughtOk(s: Sys, t: Sys, n: nat, w: Worker, error: Error)
    requires HeldOk(s, w) && (w.pc.RecordingDescriptor? || w.pc.RecordingAsset? || w.pc.Beginning?)
    requires s.st.created <= t.st.created && s.st.tokens <= t.st.tokens && LeaseOk(t, AfterThrow(w, error))
    ensures WorkerOk(t, n, AfterThrow(w, error))
  {
  }

  /** A call that threw leaves the worker in order even when the store did act. */
  lemma ThrownAfterOk(s: Sys, n: nat, e: Event, error: Error)
    requires GlobalOk(s) && OwnCall(s, n, e) && WorkerOk(s, n, s.workers[n])
    ensures WorkerOk(Effect(s, n, e), n, AfterThrow(s.workers[n], error))
  {
    var w := s.workers[n];
    if e.op.RecordDescriptor? || e.op.RecordAsset? || e.op.BeginPublishing? {
      ThrownUnderClaim(s, n, e, error);
      CaughtOk(s, Effect(s, n, e), n, w, error);
    } else {
      assert AfterThrow(w, error).pc.Returned?;
    }
  }

  /** The service calls that are made once a descriptor is known. */
  lemma ServiceReplyOk(env: Env, s: Sys, n: nat, w: Worker, reply: Reply)
    requires WorkerOk(s, n, w) && w.work.Some? && w.descriptor.Some? && !w.pc.Awaiting? && !w.pc.Preparing?
    requires ServicePc(env, w.work.value, w.descriptor.value, w.pc, reply).Some?
    ensures WorkerOk(s, n, w.(pc := ServicePc(env, w.work.value, w.descriptor.value, w.pc, reply).value))
  {
    if reply.Threw? {
      CaughtReplyOk(s, n, w, reply.error);
    }
  }

  lemma CaughtReplyOk(s: Sys, n: nat, w: Worker, error: Error)
    requires WorkerOk(s, n, w) && InsideClaim(w)
    ensures WorkerOk(s, n, w.(pc := Caught(error)))
  {
  }

  lemma ReplyOk(env: Env, s: Sys, n: nat, w: Worker, reply: Reply)
    requires WorkerOk(s, n, w) && w.work.Some? && AfterReply(env, w, reply).Some?
    ensures WorkerOk(s, n, AfterReply(env, w, reply).value)
    ensures AfterReply(env, w, reply).value == w.(pc := AfterReply(env, w, reply).value.pc,
                                                  descriptor := AfterReply(env, w, reply).value.descriptor)
  {
    if !w.pc.Awaiting? && !w.pc.Preparing? {
      ServiceReplyOk(env, s, n, w, reply);
    }
  }

  // ---- Every step keeps the invariant ----

  lemma EffectPublications(s: Sys, actor: nat, e: Event)
    requires GlobalOk(s) && PublicationsOk(s) && Legal(s.st, e)
    ensures PublicationsOk(Effect(s, actor, e))
  {
    EffectBegun(s, actor, e);
    EffectDescriptors(s, actor, e);
    var t := Effect(s, actor, e);
    forall i | 0 <= i < |t.publications|
      ensures PublicationOk(t, t.publications[i])
    {
      assert PublicationOk(s, s.publications[i]);
    }
  }

  lemma EffectOthers(s: Sys, n: nat, e: Event)
    requires Inv(s) && Legal(s.st, e) && e.at <= s.now
    requires e.op.IsTokenOp() ==> OwnCall(s, n, e)
    ensures forall m :: m in s.workers && m != n ==> WorkerOk(Effect(s, n, e), m, s.workers[m])
  {
    forall m | m in s.workers && m != n
      ensures WorkerOk(Effect(s, n, e), m, s.workers[m])
    {
      assert WorkerOk(s, m, s.workers[m]);
      if e.op.IsTokenOp() {
        assert s.workers[n].work.Some? && s.workers[n].work.value.claimId == Some(e.op.token);
      }
      EffectKeepsWorker(s, n, e, m, s.workers[m]);
    }
  }

  lemma MovedInv(t: Sys, n: nat, x: Worker)
    requires GlobalOk(t) && PublicationsOk(t) && WorkerOk(t, n, x)
    requires forall m :: m in t.workers && m != n ==> WorkerOk(t, m, t.workers[m])
    requires n in t.workers ==> x.workId == t.workers[n].workId
    requires TokensDistinct(Moved(t, n, x)) && NoOverlap(Moved(t, n, x))
    ensures Inv(Moved(t, n, x))
  {
    var u := Moved(t, n, x);
    assert GlobalOk(u);
    forall m | m in u.workers
      ensures WorkerOk(u, m, u.workers[m])
    {
      assert WorkerOk(t, m, u.workers[m]);
    }
    forall i | 0 <= i < |u.publications|
      ensures PublicationOk(u, u.publications[i])
    {
      assert PublicationOk(t, t.publications[i]);
    }
  }

  /** A move within one claim, or out of it, cannot make two runs overlap. */
  lemma SameClaimMoved(t: Sys, n: nat, x: Worker)
    requires TokensDistinct(t) && NoOverlap(t) && n in t.workers
    requires x.work == t.workers[n].work && x.workId == t.workers[n].workId
    requires InsideClaim(x) ==> InsideClaim(t.workers[n])
    ensures TokensDistinct(Moved(t, n, x)) && NoOverlap(Moved(t, n, x))
  {
  }

  /** A claim is granted only when every other run inside a claim of the work has lapsed. */
  lemma GrantedAlone(s: Sys, e: Event, m: nat)
    requires StoreOk(s) && e.op.Claim? && e.at <= s.now
    requires Answer(s.st.records, e.op.id, e.op.token, e.op.leaseMs, e.at).Granted?
    requires m in s.workers && WorkerOk(s, m, s.workers[m]) && InsideClaim(s.workers[m])
    requires s.workers[m].workId == e.op.id
    ensures Lapsed(s, s.workers[m])
  {
  }

  /** A worker newly inside a claim has a token of its own and overlaps nobody. */
  lemma NewClaimMoved(t: Sys, n: nat, x: Worker)
    requires TokensDistinct(t) && NoOverlap(t) && n in t.workers && x.workId == t.workers[n].workId
    requires forall m :: m in t.workers && m != n && t.workers[m].work.Some? && x.work.Some? ==>
      t.workers[m].work.value.claimId != x.work.value.claimId
    requires forall m :: (m in t.workers && m != n && t.workers[m].workId == x.workId && InsideClaim(t.workers[m]) &&
                          InsideClaim(x)) ==> Lapsed(t, t.workers[m])
    ensures TokensDistinct(Moved(t, n, x)) && NoOverlap(Moved(t, n, x))
  {
  }

  lemma ClaimLeads(env: Env, w: Worker, r: Records, op: Op, at: Time)
    requires Asks(w, op) && op.Claim?
    ensures var x := AfterAnswer(env, w, r, op, at);
            && x.workId == w.workId == op.id
            && (InsideClaim(x) ==> w.work.Some? || Answer(r, op.id, op.token, op.leaseMs, at).Granted?)
  {
  }

  lemma ClaimMoved(s: Sys, n: nat, e: Event, x: Worker)
    requires StoreOk(s) && WorkersOk(s) && TokensDistinct(s) && NoOverlap(s) && OwnCall(s, n, e) && e.op.Claim?
    requires x.workId == s.workers[n].workId == e.op.id
    requires InsideClaim(x) ==>
      s.workers[n].work.Some? || Answer(s.st.records, e.op.id, e.op.token, e.op.leaseMs, e.at).Granted?
    requires x.work.Some? ==> x.work.value.claimId == Some(e.op.token)
    ensures TokensDistinct(Moved(Effect(s, n, e), n, x)) && NoOverlap(Moved(Effect(s, n, e), n, x))
  {
    forall m | m in s.workers && m != n && s.workers[m].work.Some? && x.work.Some?
      ensures s.workers[m].work.value.claimId != x.work.value.claimId
    {
      assert HeldOk(s, s.workers[m]);
    }
    forall m | m in s.workers && m != n && s.workers[m].workId == x.workId &&
               InsideClaim(s.workers[m]) && InsideClaim(x)
      ensures Lapsed(s, s.workers[m])
    {
      assert HeldOk(s, s.workers[n]) && WorkerOk(s, m, s.workers[m]);
      GrantedAlone(s, e, m);
    }
    NewClaimMoved(Effect(s, n, e), n, x);
  }

  /** What an answered store call does to the worker that made it. */
  lemma ActorAnswered(env: Env, s: Sys, n: nat, e: Event, x: Worker)
    requires GlobalOk(s) && PublicationsOk(s) && OwnCall(s, n, e) && WorkerOk(s, n, s.workers[n])
    requires x == AfterAnswer(env, s.workers[n], s.st.records, e.op, e.at)
    ensures WorkerOk(Effect(s, n, e), n, x) && x.workId == s.workers[n].workId
    ensures e.op.Claim? ==> (x.work.Some? ==> x.work.value.claimId == Some(e.op.token))
    ensures !e.op.Claim? ==> x.work == s.workers[n].work && (InsideClaim(x) ==> InsideClaim(s.workers[n]))
  {
    if e.op.Claim? {
      ClaimAnswered(env, s, n, e);
    } else if e.op.Finish? {
      EndingAnswered(env, s, n, e);
    } else if e.op.Release? || e.op.ClearUpdate? {
      LeavingAnswered(env, s, n, e);
    } else {
      ClaimStepAnswered(env, s, n, e);
    }
  }

  lemma EffectRest(s: Sys, n: nat, e: Event)
    requires Inv(s) && OwnCall(s, n, e)
    ensures GlobalOk(Effect(s, n, e)) && PublicationsOk(Effect(s, n, e))
    ensures forall m :: m in s.workers && m != n ==> WorkerOk(Effect(s, n, e), m, s.workers[m])
  {
    assert WorkerOk(s, n, s.workers[n]);
    EffectGlobal(s, n, e);
    EffectPublications(s, n, e);
    EffectOthers(s, n, e);
  }

  lemma AnsweredInv(env: Env, s: Sys, n: nat, e: Event, x: Worker)
    requires Inv(s) && OwnCall(s, n, e)
    requires x == AfterAnswer(env, s.workers[n], s.st.records, e.op, e.at)
    ensures Inv(Moved(Effect(s, n, e), n, x))
  {
    EffectRest(s, n, e);
    assert WorkerOk(s, n, s.workers[n]);
    ActorAnswered(env, s, n, e, x);
    if e.op.Claim? {
      ClaimLeads(env, s.workers[n], s.st.records, e.op, e.at);
      ClaimMoved(s, n, e, x);
    } else {
      SameClaimMoved(Effect(s, n, e), n, x);
    }
    MovedInv(Effect(s, n, e), n, x);
  }

  lemma ThrowStaysInside(w: Worker, error: Error)
    requires CallsOut(w.pc)
    ensures var x := AfterThrow(w, error);
            x == w.(pc := x.pc) && (w.pc.Claiming? || (InsideClaim(x) ==> InsideClaim(w)))
            && (w.pc.Claiming? ==> !InsideClaim(x))
  {
  }

  lemma ThrewAfterInv(s: Sys, n: nat, e: Event, error: Error)
    requires Inv(s) && OwnCall(s, n, e)
    ensures Inv(Moved(Effect(s, n, e), n, AfterThrow(s.workers[n], error)))
  {
    EffectRest(s, n, e);
    assert WorkerOk(s, n, s.workers[n]);
    ThrowStaysInside(s.workers[n], error);
    ThrownAfterOk(s, n, e, error);
    SameClaimMoved(Effect(s, n, e), n, AfterThrow(s.workers[n], error));
    MovedInv(Effect(s, n, e), n, AfterThrow(s.workers[n], error));
  }

  lemma ThrewBeforeInv(s: Sys, n: nat, error: Error)
    requires Inv(s) && n in s.workers && CallsOut(s.workers[n].pc)
    ensures Inv(Moved(s, n, AfterThrow(s.workers[n], error)))
  {
    assert WorkerOk(s, n, s.workers[n]);
    ThrowStaysInside(s.workers[n], error);
    ThrownOk(s, n, s.workers[n], error);
    SameClaimMoved(s, n, AfterThrow(s.workers[n], error));
    MovedInv(s, n, AfterThrow(s.workers[n], error));
  }

  lemma OthersInv(s: Sys, e: Event)
    requires Inv(s) && Legal(s.st, e) && e.at <= s.now && (e.op.Create? ==> e.op.work.jobId in s.jobIds)
    requires e.op.Create? || e.op.Forget? || e.op.MarkEnqueued? || e.op.Cancel?
    ensures Inv(Effect(s, 0, e))
  {
    EffectGlobal(s, 0, e);
    EffectPublications(s, 0, e);
    OthersWorkers(s, e);
    SameWorkersApart(s, Effect(s, 0, e));
  }

  lemma OthersWorkers(s: Sys, e: Event)
    requires GlobalOk(s) && WorkersOk(s) && Legal(s.st, e) && e.at <= s.now
    requires e.op.Create? || e.op.Forget? || e.op.MarkEnqueued? || e.op.Cancel?
    ensures forall m :: m in s.workers ==> WorkerOk(Effect(s, 0, e), m, s.workers[m])
  {
    forall m | m in s.workers
      ensures WorkerOk(Effect(s, 0, e), m, s.workers[m])
    {
      EffectKeepsWorker(s, 0, e, m, s.workers[m]);
    }
  }

  /** Whoever changed the store: the same workers at the same time do not overlap. */
  lemma SameWorkersApart(s: Sys, t: Sys)
    requires TokensDistinct(s) && NoOverlap(s) && t.workers == s.workers && t.now == s.now
    ensures TokensDistinct(t) && NoOverlap(t)
  {
    forall m, n | m in t.workers && n in t.workers && m != n && t.workers[m].workId == t.workers[n].workId &&
                  InsideClaim(t.workers[m]) && InsideClaim(t.workers[n])
      ensures Lapsed(t, t.workers[m]) || Lapsed(t, t.workers[n])
    {
      assert Lapsed(s, s.workers[m]) || Lapsed(s, s.workers[n]);
    }
  }

  /** Time, the job store or what was heard of publications moved on; everything else is as it was. */
  ghost predicate OnlyLater(s: Sys, t: Sys) {
    && t == s.(now := t.now, jobs := t.jobs, jobIds := t.jobIds, answers := t.answers, told := t.told)
    && s.now <= t.now && s.jobIds <= t.jobIds && t.jobs.Keys <= t.jobIds
    && (forall j :: JobDone(s, j) ==> JobDone(t, j))
  }

  lemma LaterInv(s: Sys, t: Sys)
    requires Inv(s) && OnlyLater(s, t)
    requires t.told == s.told || exists r :: t.told == s.told + [r] && r.workId in s.outcomes &&
                                             s.outcomes[r.workId].update == Some(r.update)
    ensures Inv(t)
  {
    forall m | m in t.workers
      ensures WorkerOk(t, m, t.workers[m])
    {
      assert WorkerOk(s, m, s.workers[m]);
    }
    forall i | 0 <= i < |t.publications|
      ensures PublicationOk(t, t.publications[i])
    {
      assert PublicationOk(s, s.publications[i]);
    }
    forall m, n | m in t.workers && n in t.workers && m != n && t.workers[m].workId == t.workers[n].workId &&
                  InsideClaim(t.workers[m]) && InsideClaim(t.workers[n])
      ensures Lapsed(t, t.workers[m]) || Lapsed(t, t.workers[n])
    {
      assert Lapsed(s, s.workers[m]) || Lapsed(s, s.workers[n]);
    }
  }

  /** No use of the job store makes a finished job pending again: its id is never reused. */
  lemma JobOpLater(s: Sys, op: Jobs.JobOp, at: Time, jobIds: set<Jobs.JobId>)
    requires s.jobs.Keys <= s.jobIds && at <= s.now
    requires Jobs.Inserts(s.jobs, op, at) ==> op.id !in s.jobIds
    requires jobIds == if op.Create? then s.jobIds + {op.id} else s.jobIds
    ensures OnlyLater(s, s.(jobs := Jobs.ApplyJob(s.jobs, op, at), jobIds := jobIds))
  {
  }

  /** Reporting a terminal update leaves no pending, unexpired job behind. */
  lemma ToldIsDone(s: Sys, jobId: Jobs.JobId, update: Update, at: Time)
    requires at <= s.now && jobId in s.jobIds
    ensures JobDone(s.(jobs := Jobs.ApplyJob(s.jobs, JobOpOf(jobId, update), at)), jobId)
  {
  }

  lemma ToldInv(s: Sys, n: nat, at: Time)
    requires Inv(s) && n in s.workers && s.workers[n].pc.Telling? && at <= s.now
    ensures Inv(AfterTold(s, n, at)) && JobDone(AfterTold(s, n, at), s.workers[n].pc.jobId)
  {
    var w := s.workers[n];
    assert ReportOk(s, w);
    var op := JobOpOf(w.pc.jobId, w.pc.update);
    JobOpLater(s, op, at, s.jobIds);
    ToldIsDone(s, w.pc.jobId, w.pc.update, at);
    var t := AfterTold(s, n, at);
    assert OnlyLater(s, t);
    assert t.told == s.told + [Report(w.workId, w.pc.update)];
    LaterInv(s, t);
  }

  lemma ClearingOk(t: Sys, n: nat, w: Worker)
    requires WorkerOk(t, n, w) && w.pc.Telling? && JobDone(t, w.pc.jobId)
    ensures WorkerOk(t, n, w.(pc := Clearing(w.pc.jobId, w.pc.done, w.pc.onError)))
  {
  }

  lemma TellInv(s: Sys, n: nat, at: Time, fate: Fate)
    requires Inv(s) && n in s.workers && s.workers[n].pc.Telling? && at <= s.now
    ensures var w := s.workers[n];
            Inv(match fate
                case Answered => Moved(AfterTold(s, n, at), n, w.(pc := Clearing(w.pc.jobId, w.pc.done, w.pc.onError)))
                case ThrewAfter(error) => Moved(AfterTold(s, n, at), n, AfterThrow(w, error))
                case ThrewBefore(error) => Moved(s, n, AfterThrow(w, error)))
  {
    var w := s.workers[n];
    ToldInv(s, n, at);
    var t := AfterTold(s, n, at);
    match fate
    case Answered =>
      var x := w.(pc := Clearing(w.pc.jobId, w.pc.done, w.pc.onError));
      assert WorkerOk(t, n, t.workers[n]);
      ClearingOk(t, n, w);
      SameClaimMoved(t, n, x);
      MovedInv(t, n, x);
    case ThrewAfter(error) => ThrewBeforeInv(t, n, error);
    case ThrewBefore(error) => ThrewBeforeInv(s, n, error);
  }

  lemma CalledOk(s: Sys, n: nat, p: Publication, m: nat)
    requires n in s.workers && CallingOk(s, n, s.workers[n]) && s.workers[n].pc.Calling?
    requires m in s.workers && m != n && WorkerOk(s, m, s.workers[m]) && p.workId == s.workers[n].workId
    ensures WorkerOk(s.(publications := s.publications + [p]), m, s.workers[m])
  {
  }

  lemma AwaitingOk(s: Sys, t: Sys, n: nat, w: Worker)
    requires WorkerOk(s, n, w) && w.pc.Calling? && t == s.(publications := t.publications)
    ensures WorkerOk(t, n, w.(pc := Awaiting))
  {
  }

  lemma PublishedOk(s: Sys, n: nat, p: Publication)
    requires PublicationsOk(s) && n in s.workers && s.workers[n].pc.Calling? && WorkerOk(s, n, s.workers[n])
    requires p == Publication(n, s.workers[n].workId, s.workers[n].pc.asset, s.workers[n].pc.resource)
    ensures PublicationsOk(s.(publications := s.publications + [p]))
  {
    var t := s.(publications := s.publications + [p]);
    assert PublicationOk(t, p);
    forall i | 0 <= i < |s.publications|
      ensures PublicationOk(t, s.publications[i])
    {
      assert PublicationOk(s, s.publications[i]);
    }
  }

  lemma OthersSeePublication(s: Sys, n: nat, p: Publication)
    requires WorkersOk(s) && n in s.workers && s.workers[n].pc.Calling? && p.workId == s.workers[n].workId
    ensures forall m :: m in s.workers && m != n ==> WorkerOk(s.(publications := s.publications + [p]), m, s.workers[m])
  {
    assert WorkerOk(s, n, s.workers[n]);
    forall m | m in s.workers && m != n
      ensures WorkerOk(s.(publications := s.publications + [p]), m, s.workers[m])
    {
      assert WorkerOk(s, m, s.workers[m]);
      CalledOk(s, n, p, m);
    }
  }

  lemma PublishInv(s: Sys, n: nat, w: Worker, p: Publication)
    requires Inv(s) && n in s.workers && w == s.workers[n] && w.pc.Calling?
    requires p == Publication(n, w.workId, w.pc.asset, w.pc.resource)
    ensures Inv(Moved(s.(publications := s.publications + [p]), n, w.(pc := Awaiting)))
  {
    var t := s.(publications := s.publications + [p]);
    assert WorkerOk(s, n, w);
    PublishedOk(s, n, p);
    AwaitingOk(s, t, n, w);
    OthersSeePublication(s, n, p);
    SameWorkersApart(s, t);
    SameClaimMoved(t, n, w.(pc := Awaiting));
    MovedInv(t, n, w.(pc := Awaiting));
  }

  // The steps in which only one worker moves.

  lemma DeliverInv(s: Sys, n: nat, id: WorkId)
    requires Inv(s) && n !in s.workers
    ensures Inv(Moved(s, n, Worker(id, None, None, Claiming)))
  {
    MovedInv(s, n, Worker(id, None, None, Claiming));
  }

  lemma ServiceInv(env: Env, s: Sys, n: nat, reply: Reply)
    requires Inv(s) && n in s.workers && s.workers[n].work.Some? && AfterReply(env, s.workers[n], reply).Some?
    ensures Inv(Moved(Heard(s, n, reply), n, AfterReply(env, s.workers[n], reply).value))
  {
    var t := Heard(s, n, reply);
    LaterInv(s, t);
    assert WorkerOk(t, n, t.workers[n]);
    ReplyOk(env, t, n, t.workers[n], reply);
    ReplyComesInside(env, t.workers[n], reply);
    SameClaimMoved(t, n, AfterReply(env, t.workers[n], reply).value);
    MovedInv(t, n, AfterReply(env, t.workers[n], reply).value);
  }

  lemma ReplyComesInside(env: Env, w: Worker, reply: Reply)
    requires w.work.Some? && AfterReply(env, w, reply).Some?
    ensures InsideClaim(w)
  {
  }

  lemma CrashInv(s: Sys, n: nat)
    requires Inv(s) && n in s.workers
    ensures Inv(Moved(s, n, s.workers[n].(pc := Crashed)))
  {
    assert WorkerOk(s, n, s.workers[n]);
    SameClaimMoved(s, n, s.workers[n].(pc := Crashed));
    MovedInv(s, n, s.workers[n].(pc := Crashed));
  }

  lemma StoreCallInv(env: Env, s: Sys, step: Step)
    requires Inv(s) && Enabled(env, s, step) && step.StoreCall?
    ensures Inv(Next(env, s, step))
  {
    var n := step.worker;
    var op := Request(s.workers[n], step.token, step.deadline).value;
    var e := Event(op, step.at);
    assert CallsOut(s.workers[n].pc) && OwnCall(s, n, e);
    match step.fate
    case Answered => AnsweredInv(env, s, n, e, AfterAnswer(env, s.workers[n], s.st.records, op, step.at));
    case ThrewAfter(error) => ThrewAfterInv(s, n, e, error);
    case ThrewBefore(error) => ThrewBeforeInv(s, n, error);
  }

  lemma StepKeepsInv(env: Env, s: Sys, step: Step)
    requires Inv(s) && Enabled(env, s, step)
    ensures Inv(Next(env, s, step))
  {
    match step
    case Others(e) => OthersInv(s, e);
    case StoreCall(_, _, _, _, _) => StoreCallInv(env, s, step);
    case _ => QuietStepInv(env, s, step);
  }

  /** The steps that leave the records alone. */
  lemma QuietStepInv(env: Env, s: Sys, step: Step)
    requires Inv(s) && Enabled(env, s, step) && !step.Others? && !step.StoreCall?
    ensures Inv(Next(env, s, step))
  {
    match step
    case Tick(later) => LaterInv(s, s.(now := later));
    case JobStep(op, at) =>
      JobOpLater(s, op, at, if op.Create? then s.jobIds + {op.id} else s.jobIds);
      LaterInv(s, Next(env, s, step));
    case Deliver(n, id) => DeliverInv(s, n, id);
    case Service(n, reply) => ServiceInv(env, s, n, reply);
    case Crash(n) => CrashInv(s, n);
    case Publish(n) =>
      var w := s.workers[n];
      PublishInv(s, n, w, Publication(n, w.workId, w.pc.asset, w.pc.resource));
    case TellJob(n, at, fate) => TellInv(s, n, at, fate);
  }
}
