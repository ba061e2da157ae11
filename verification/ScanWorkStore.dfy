/**
 * InMemoryAttachmentScanWorkStore of src/attachments/scan-work-store.ts: every method is proved
 * to perform exactly one operation of ScanWork (after dropping an expired record where the source
 * does), and claim, complete and fail also tell the requester's job.
 */
module ScanWorkStore {
  import opened Basics
  import opened ScanWork
  import Jobs

  function CodeText(code: FailureCode): string {
    match code
    case EnqueueFailed => "enqueue_failed"
    case DownloadFailed => "download_failed"
    case ValidationFailed => "validation_failed"
    case ScanInfected => "scan_infected"
    case ScanUnavailable => "scan_unavailable"
    case SignatureStale => "signature_stale"
    case PublishFailed => "publish_failed"
    case PublicationAbandoned => "publication_abandoned"
    case WorkerFailed => "worker_failed"
  }

  /** The job operation that reports an update. */
  function JobOpOf(jobId: Jobs.JobId, update: Update): Jobs.JobOp {
    match update
    case JobCompleted(result) => Jobs.Complete(jobId, result, None)
    case JobFailed(code) => Jobs.Fail(jobId, CodeText(code))
  }

  /** The requester's job after the update of a work has been reported. */
  function Told(jobs: Jobs.JobMap, w: Work, at: Time): Jobs.JobMap {
    if w.pendingJobUpdate.None? then jobs
    else Jobs.ApplyJob(jobs, JobOpOf(w.jobId, w.pendingJobUpdate.value), at)
  }

  /** The records after the update of the work with this id has been reported. */
  function Reconciled(s: Records, id: WorkId, at: Time): Records {
    Apply(s, ClearUpdate(id), at)
  }

  function Unexpired(s: Records, at: Time): Records {
    map id | id in s && s[id].expiresAt > at :: s[id]
  }

  function PendingIds(s: Records): set<WorkId> {
    set id | id in s && s[id].status == PendingEnqueue
  }

  predicate Distinct(ids: seq<WorkId>) {
    forall i, j :: 0 <= i < j < |ids| ==> ids[i] != ids[j]
  }

  /** The ids of the pending works, each once. */
  method CollectPending(s: Records) returns (ids: seq<WorkId>)
    ensures Distinct(ids) && |ids| == |PendingIds(s)|
    ensures forall i :: 0 <= i < |ids| ==> ids[i] in PendingIds(s)
  {
    var todo := PendingIds(s);
    ids := [];
    while todo != {}
      invariant todo <= PendingIds(s) && |ids| + |todo| == |PendingIds(s)|
      invariant Distinct(ids)
      invariant forall i :: 0 <= i < |ids| ==> ids[i] in PendingIds(s) && ids[i] !in todo
      decreases todo
    {
      var id :| id in todo;
      ids, todo := ids + [id], todo - {id};
    }
  }

  function WorksOf(s: Records, ids: seq<WorkId>): (r: seq<Work>)
    requires forall i :: 0 <= i < |ids| ==> ids[i] in s
    ensures |r| == |ids| && forall i :: 0 <= i < |r| ==> r[i] == s[ids[i]]
  {
    seq(|ids|, i requires 0 <= i < |ids| => s[ids[i]])
  }

  datatype CreateResult = Created(work: Work) | SourceInvalid

  class InMemoryAttachmentScanWorkStore {
    var values: Records
    const jobStore: Jobs.InMemoryAgentJobStore
    const claimLeaseMs: nat
    const publishingLeaseMs: nat

    constructor (jobStore: Jobs.InMemoryAgentJobStore, claimLeaseMs: nat, publishingLeaseMs: nat)
      ensures values == map[] && this.jobStore == jobStore
      ensures this.claimLeaseMs == claimLeaseMs && this.publishingLeaseMs == publishingLeaseMs
    {
      this.jobStore := jobStore;
      this.claimLeaseMs := claimLeaseMs;
      this.publishingLeaseMs := publishingLeaseMs;
      values := map[];
    }

    ghost predicate Valid()
      reads this
    {
      forall id :: id in values ==> values[id].id == id
    }

    method CreateWork(id: WorkId, jobId: Jobs.JobId, lineMessageId: string, scope: Jobs.Scope, target: Target,
                      ttlMs: nat, at: Time)
      returns (r: CreateResult)
      requires Valid()
      modifies this
      ensures Valid()
      ensures IsBlank(lineMessageId) ==> r == SourceInvalid && values == old(values)
      ensures !IsBlank(lineMessageId) ==>
                r.Created? && IsNew(r.work) && values == Apply(old(values), Create(r.work), at) &&
                r.work == NewWork(id, jobId, lineMessageId, scope, target, ttlMs, at)
    {
      if IsBlank(lineMessageId) { return SourceInvalid; }
      var work := Work(id, jobId, lineMessageId, None, None, scope, target, PendingEnqueue, None, at, None, None, None,
                       None, None, None, None, at + ttlMs);
      values := values[id := work];
      return Created(work);
    }

    method Live(id: WorkId, at: Time) returns (r: Option<Work>)
      modifies this
      ensures values == Dropped(old(values), id, at)
      ensures r == if id in values then Some(values[id]) else None
    {
      if id !in values { return None; }
      var work := values[id];
      if work.expiresAt <= at {
        values := values - {id};
        return None;
      }
      return Some(work);
    }

    method MarkEnqueuedWork(id: WorkId, at: Time) returns (ok: bool)
      modifies this
      ensures values == Apply(Dropped(old(values), id, at), MarkEnqueued(id), at)
      ensures ok == Accepts(old(values), MarkEnqueued(id), at)
    {
      var work := Live(id, at);
      if work.None? || work.value.status != PendingEnqueue { return false; }
      values := values[id := work.value.(status := Queued)];
      return true;
    }

    /** Read every record through Live: the expired ones go, the rest stay as they are. */
    method DropExpired(at: Time)
      modifies this
      ensures values == Unexpired(old(values), at)
    {
      ghost var before := values;
      var todo := values.Keys;
      while todo != {}
        invariant todo <= before.Keys
        invariant values == map k | k in before && (k in todo || before[k].expiresAt > at) :: before[k]
        decreases todo
      {
        var id :| id in todo;
        todo := todo - {id};
        var work := Live(id, at);
      }
    }

    /** The outbox: of the unexpired pending works, at most limit, each once. */
    method ListPendingEnqueue(limit: nat, at: Time) returns (r: seq<Work>)
      requires Valid()
      modifies this
      ensures Valid() && values == Unexpired(old(values), at)
      ensures forall i :: 0 <= i < |r| ==> r[i].id in PendingIds(values) && r[i] == values[r[i].id]
      ensures forall i, j :: 0 <= i < j < |r| ==> r[i].id != r[j].id
      ensures |r| == Min(limit, |PendingIds(values)|)
    {
      DropExpired(at);
      var ids := CollectPending(values);
      if |ids| > limit { ids := ids[..limit]; }
      r := WorksOf(values, ids);
    }

    /** The part of claimForProcessing that runs before its first await. */
    method ClaimRecord(id: WorkId, token: Token, at: Time) returns (answer: Disposition, toReport: Option<Work>)
      requires Valid()
      modifies this
      ensures Valid()
      ensures answer == Answer(old(values), id, token, claimLeaseMs, at)
      ensures values == Apply(Dropped(old(values), id, at), Claim(id, token, claimLeaseMs), at)
      ensures id in old(values) && old(values)[id].expiresAt > at ==>
                id in values && values == old(values)[id := values[id]] &&
                ClaimDoes(old(values)[id], values[id], answer, token, at, claimLeaseMs)
      ensures id !in old(values) || old(values)[id].expiresAt <= at ==>
                answer == Missing && values == old(values) - {id}
      ensures toReport == if answer.Settled? then Some(values[id]) else None
      ensures answer.Settled? || answer.Granted? ==> id in values
    {
      if id !in values || values[id].id != id || values[id].expiresAt <= at {
        values := values - {id};
        return Missing, None;
      }
      var work := values[id];
      if work.status == Completed || work.status == Failed {
        return Settled(work.status, work.failureCode), Some(work);
      }
      if work.status == Publishing {
        if work.publishingExpiresAt.None? || work.publishingExpiresAt.value > at {
          return Active, None;
        }
        var abandoned := work.(status := Failed, failureCode := Some(PublicationAbandoned), completedAt := Some(at),
                               claimId := None, claimExpiresAt := None,
                               pendingJobUpdate := Some(JobFailed(PublicationAbandoned)));
        values := values[id := abandoned];
        return Settled(Failed, Some(PublicationAbandoned)), Some(abandoned);
      }
      var claimable := work.status == Queued ||
                       (work.status == Claimed && work.claimExpiresAt.Some? && work.claimExpiresAt.value <= at);
      if !claimable { return Active, None; }
      var claimed := work.(status := Claimed, claimedAt := Some(at), claimId := Some(token),
                           claimExpiresAt := Some(at + claimLeaseMs), publishingAt := None,
                           publishingExpiresAt := None);
      values := values[id := claimed];
      return Granted(claimed), None;
    }

    /** Tell the requester's job, then drop the pending update. */
    method ReconcileTerminalJobUpdate(work: Work, at: Time)
      requires work.id in values && values[work.id] == work && Terminal(work)
      modifies this, jobStore
      ensures values == Reconciled(old(values), work.id, at)
      ensures jobStore.jobs == Told(old(jobStore.jobs), work, at)
    {
      if work.pendingJobUpdate.None? { return; }
      match work.pendingJobUpdate.value {
        case JobCompleted(result) => jobStore.CompleteJob(work.jobId, result, None, at);
        case JobFailed(error) => jobStore.FailJob(work.jobId, CodeText(error));
      }
      if work.id in values {
        var current := values[work.id];
        if (current.status == Completed || current.status == Failed) && current.pendingJobUpdate.Some? {
          values := values[work.id := current.(pendingJobUpdate := None)];
        }
      }
    }

    /** claimForProcessing without interruption: redelivery reports a terminal work's own update. */
    method ClaimForProcessing(id: WorkId, token: Token, at: Time) returns (answer: Disposition)
      requires Valid()
      modifies this, jobStore
      ensures answer == Answer(old(values), id, token, claimLeaseMs, at)
      ensures answer == Missing <==> id !in old(values) || old(values)[id].expiresAt <= at
      ensures answer != Missing ==> id in values && values == old(values)[id := values[id]]
      ensures answer.Granted? || answer.Active? ==>
                ClaimDoes(old(values)[id], values[id], answer, token, at, claimLeaseMs)
      ensures answer.Settled? ==>
                exists v :: ClaimDoes(old(values)[id], v, answer, token, at, claimLeaseMs) &&
                            values[id] == v.(pendingJobUpdate := None)
      ensures var claimed := Apply(Dropped(old(values), id, at), Claim(id, token, claimLeaseMs), at);
              if answer.Settled?
              then values == Reconciled(claimed, id, at) && jobStore.jobs == Told(old(jobStore.jobs), claimed[id], at)
              else values == claimed && jobStore.jobs == old(jobStore.jobs)
    {
      var toReport;
      answer, toReport := ClaimRecord(id, token, at);
      assert answer != Missing ==> ClaimDoes(old(values)[id], values[id], answer, token, at, claimLeaseMs);
      if toReport.Some? {
        ReconcileTerminalJobUpdate(toReport.value, at);
      }
    }

    method BeginPublishingWork(id: WorkId, token: Token, deadline: Option<Time>, at: Time) returns (ok: bool)
      modifies this
      ensures values == Apply(old(values), BeginPublishing(id, token, publishingLeaseMs, deadline), at)
      ensures ok == Accepts(old(values), BeginPublishing(id, token, publishingLeaseMs, deadline), at)
    {
      if id !in values { return false; }
      var work := values[id];
      if work.status != Claimed || work.claimId != Some(token) || work.claimExpiresAt.None? ||
         work.claimExpiresAt.value <= at || work.expiresAt <= at {
        return false;
      }
      var publishingExpiresAt := BoundedExpiry(at, publishingLeaseMs, work.expiresAt, deadline);
      if publishingExpiresAt <= at { return false; }
      values := values[id := work.(status := Publishing, claimExpiresAt := None, publishingAt := Some(at),
                                   publishingExpiresAt := Some(publishingExpiresAt))];
      return true;
    }

    method RecordAssetId(id: WorkId, token: Token, assetId: string, at: Time) returns (ok: bool)
      modifies this
      ensures values == Apply(old(values), RecordAsset(id, token, assetId), at)
      ensures ok == Accepts(old(values), RecordAsset(id, token, assetId), at)
    {
      if IsBlank(assetId) || id !in values { return false; }
      var work := values[id];
      if work.status != Claimed || work.claimId != Some(token) || work.claimExpiresAt.None? ||
         work.claimExpiresAt.value <= at || work.expiresAt <= at ||
         (work.assetId.Some? && work.assetId.value != assetId) {
        return false;
      }
      values := values[id := work.(assetId := Some(assetId))];
      return true;
    }

    method RecordUploadDescriptor(id: WorkId, token: Token, descriptor: Descriptor, at: Time) returns (ok: bool)
      modifies this
      ensures values == Apply(old(values), RecordDescriptor(id, token, descriptor), at)
      ensures ok == Accepts(old(values), RecordDescriptor(id, token, descriptor), at)
    {
      if !ValidDescriptor(descriptor) || id !in values { return false; }
      var work := values[id];
      if work.status != Claimed || work.claimId != Some(token) || work.claimExpiresAt.None? ||
         work.claimExpiresAt.value <= at || work.expiresAt <= at ||
         (work.uploadDescriptor.Some? && work.uploadDescriptor.value != descriptor) {
        return false;
      }
      values := values[id := work.(uploadDescriptor := Some(descriptor))];
      return true;
    }

    method ReleaseForRetry(id: WorkId, token: Token, at: Time) returns (ok: bool)
      modifies this
      ensures values == Apply(old(values), Release(id, token), at)
      ensures ok == Accepts(old(values), Release(id, token), at)
    {
      if id !in values { return false; }
      var work := values[id];
      if work.status != Claimed || work.claimId != Some(token) || work.claimExpiresAt.None? ||
         work.claimExpiresAt.value <= at || work.expiresAt <= at {
        return false;
      }
      values := values[id := work.(status := Queued, claimedAt := None, claimId := None, claimExpiresAt := None)];
      return true;
    }

    method CancelPendingEnqueue(id: WorkId, code: FailureCode, at: Time) returns (ok: bool)
      modifies this
      ensures values == Apply(Dropped(old(values), id, at), Cancel(id, code), at)
      ensures ok == Accepts(old(values), Cancel(id, code), at)
    {
      var work := Live(id, at);
      if work.None? || work.value.status != PendingEnqueue { return false; }
      values := values[id := work.value.(status := Failed, failureCode := Some(code), completedAt := Some(at))];
      return true;
    }

    method TerminalStatus(id: WorkId, at: Time) returns (status: Option<Status>)
      modifies this
      ensures values == Dropped(old(values), id, at)
      ensures status == if id in values && Terminal(values[id]) then Some(values[id].status) else None
    {
      var work := Live(id, at);
      return if work.Some? && (work.value.status == Completed || work.value.status == Failed)
             then Some(work.value.status) else None;
    }

    method TransitionTerminal(id: WorkId, token: Token, ending: Ending, at: Time) returns (r: Option<Work>)
      modifies this
      ensures values == Apply(old(values), Finish(id, token, ending), at)
      ensures r.Some? == Accepts(old(values), Finish(id, token, ending), at)
      ensures r.Some? ==> id in values && r.value == values[id]
    {
      if id !in values { return None; }
      var work := values[id];
      var liveClaim := work.status == Claimed && ending.Fail? && work.claimExpiresAt.Some? &&
                       work.claimExpiresAt.value > at;
      var livePublication := work.status == Publishing && work.publishingExpiresAt.Some? &&
                             work.publishingExpiresAt.value > at;
      if work.claimId != Some(token) || work.expiresAt <= at || (!liveClaim && !livePublication) {
        return None;
      }
      var terminal := work.(status := if ending.Complete? then Completed else Failed,
                            claimId := None, claimExpiresAt := None,
                            pendingJobUpdate := Some(UpdateOf(ending)), completedAt := Some(at));
      if ending.Fail? {
        terminal := terminal.(failureCode := Some(ending.code));
      }
      values := values[id := terminal];
      return Some(terminal);
    }

    /** complete and fail without interruption. */
    method FinishWork(id: WorkId, token: Token, ending: Ending, at: Time) returns (ok: bool)
      requires Valid()
      modifies this, jobStore
      ensures ok == Accepts(old(values), Finish(id, token, ending), at)
      ensures !ok ==> values == old(values) && jobStore.jobs == old(jobStore.jobs)
      ensures ok ==> values == Reconciled(Apply(old(values), Finish(id, token, ending), at), id, at)
      ensures ok ==> jobStore.jobs ==
                     Jobs.ApplyJob(old(jobStore.jobs), JobOpOf(old(values)[id].jobId, UpdateOf(ending)), at)
    {
      var work := TransitionTerminal(id, token, ending, at);
      if work.None? { return false; }
      ReconcileTerminalJobUpdate(work.value, at);
      return true;
    }
  }
}
