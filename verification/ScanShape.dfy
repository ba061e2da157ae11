/**
 * The shape of stored scan works, src/attachments/scan-work-store.ts: which fields each status
 * carries, how long a lease can last, and that no operation writes a work the scripts cannot read.
 */
module ScanShape {
  import opened Basics
  import opened ScanWork
  import opened ScanRedisStore

  predicate Unclaimed(w: Work) {
    && w.claimedAt.None? && w.claimId.None? && w.claimExpiresAt.None?
    && w.publishingAt.None? && w.publishingExpiresAt.None?
  }

  predicate Unended(w: Work) {
    w.failureCode.None? && w.completedAt.None? && w.pendingJobUpdate.None?
  }

  /** A terminal work is held by nobody and can only owe the update of its own ending. */
  predicate EndedWell(w: Work) {
    && w.claimId.None? && w.claimExpiresAt.None? && w.completedAt.Some?
    && (w.status == Completed ==>
          w.failureCode.None? && (w.pendingJobUpdate.Some? ==> w.pendingJobUpdate.value.JobCompleted?))
    && (w.status == Failed ==>
          w.failureCode.Some? &&
          (w.pendingJobUpdate.Some? ==> w.pendingJobUpdate == Some(JobFailed(w.failureCode.value))))
  }

  /** Only a publishing work has a publication lease, and that ends with the work at the latest. */
  predicate WellFormed(w: Work) {
    match w.status
    case PendingEnqueue => Unclaimed(w) && Unended(w)
    case Queued => Unclaimed(w) && Unended(w)
    case Claimed =>
      && Unended(w) && w.claimId.Some? && w.claimedAt.Some? && w.claimExpiresAt.Some?
      && w.claimedAt.value <= w.claimExpiresAt.value && w.publishingAt.None? && w.publishingExpiresAt.None?
    case Publishing =>
      && Unended(w) && w.claimId.Some? && w.claimedAt.Some? && w.claimExpiresAt.None?
      && w.publishingAt.Some? && w.publishingExpiresAt.Some?
      && w.publishingAt.value < w.publishingExpiresAt.value <= w.expiresAt
    case _ => EndedWell(w)
  }

  lemma StepKeepsShape(w: Work, op: Op, at: Time)
    requires WellFormed(w) && NextWork(w, op, at).Some?
    ensures WellFormed(NextWork(w, op, at).value)
  {
  }

  ghost predicate AllWellFormed(s: Records) {
    forall id :: id in s ==> WellFormed(s[id])
  }

  /** In every run every record has the fields of its status and no others. */
  lemma {:induction false} RunKeepsShape(st: Store, es: seq<Event>)
    requires LegalRun(st, es) && AllWellFormed(st.records)
    ensures AllWellFormed(Run(st, es).records)
    decreases |es|
  {
    if es != [] {
      var e := es[0];
      if Accepts(st.records, e.op, e.at) {
        StepKeepsShape(st.records[e.op.Id()], e.op, e.at);
      }
      RunKeepsShape(After(st, e), es[1..]);
    }
  }

  /** The end of a lease is the latest time that respects its length, the work and the deadline. */
  lemma BoundedExpiryIsLatest(start: Time, leaseMs: nat, workExpiresAt: Time, deadline: Option<Time>, t: Time)
    ensures t <= BoundedExpiry(start, leaseMs, workExpiresAt, deadline) <==>
            t <= start + leaseMs && t <= workExpiresAt && (deadline.Some? ==> t <= deadline.value)
  {
  }

  /** Whoever begins to publish holds no lease past the lease length, the work or the deadline. */
  lemma PublicationLeaseIsBounded(w: Work, token: Token, leaseMs: nat, deadline: Option<Time>, at: Time)
    requires NextWork(w, BeginPublishing(w.id, token, leaseMs, deadline), at).Some?
    ensures var v := NextWork(w, BeginPublishing(w.id, token, leaseMs, deadline), at).value;
            && v.publishingExpiresAt.Some?
            && var until := v.publishingExpiresAt.value;
               at < until <= at + leaseMs && until <= w.expiresAt && (deadline.Some? ==> until <= deadline.value)
  {
  }

  // ---- Everything written stays readable ----

  /** A new work is readable exactly when it names its requester and none of its texts is empty. */
  lemma NewWorkReads(w: Work)
    requires IsNew(w)
    ensures SchemaValid(w) <==>
              w.scope.requesterUserId != None && w.scope.requesterUserId != Some("") &&
              "" !in {w.lineMessageId, w.scope.profileName, w.scope.sourceKey, w.target.sourceKey, w.target.itemKind,
                      w.target.domain, w.target.title}
  {
  }

  /** No operation makes a readable work unreadable, or the other way round. */
  lemma StepKeepsSchema(w: Work, op: Op, at: Time)
    requires NextWork(w, op, at).Some?
    ensures SchemaValid(NextWork(w, op, at).value) <==> SchemaValid(w)
  {
    match op
    case RecordAsset(_, _, assetId) => assert assetId == "" ==> IsBlank(assetId);
    case _ =>
  }

  ghost predicate AllReadable(s: Records) {
    forall id :: id in s ==> SchemaValid(s[id])
  }

  /** Works created with their text fields filled in are readable by every script, after any run. */
  lemma {:induction false} RunKeepsSchema(st: Store, es: seq<Event>)
    requires LegalRun(st, es) && AllReadable(st.records)
    requires forall i :: 0 <= i < |es| && es[i].op.Create? ==> SchemaValid(es[i].op.work)
    ensures AllReadable(Run(st, es).records)
    decreases |es|
  {
    if es != [] {
      var e := es[0];
      if Accepts(st.records, e.op, e.at) {
        StepKeepsSchema(st.records[e.op.Id()], e.op, e.at);
      }
      assert e.op.Create? ==> SchemaValid(e.op.work);
      RunKeepsSchema(After(st, e), es[1..]);
    }
  }
}
