/**
 * No stuck work, src/attachments/scan-work-store.ts: in every state that runs of operations reach, a
 * claim takes over what nobody holds any more and leaves alone what somebody does, in both stores.
 */
module ScanClaims {
  import opened Basics
  import opened ScanWork
  import opened ScanRedisStore
  import opened ScanShape
  import opened ScanAgreement

  /** The lengths of the leases that one store hands out. */
  datatype Leases = Leases(claimMs: nat, publishingMs: nat)

  predicate UsesLeases(op: Op, leases: Leases) {
    && (op.Claim? ==> op.leaseMs == leases.claimMs)
    && (op.BeginPublishing? ==> op.leaseMs == leases.publishingMs)
    && (op.Create? ==> IsNew(op.work))
  }

  ghost predicate AllUseLeases(es: seq<Event>, leases: Leases) {
    forall i :: 0 <= i < |es| ==> UsesLeases(es[i].op, leases)
  }

  /** A lease runs from the claim, or from the beginning of the publication, and no longer than its length. */
  predicate LeasedSince(w: Work, leases: Leases) {
    && WellFormed(w)
    && (w.status == Claimed ==> w.claimExpiresAt.value == w.claimedAt.value + leases.claimMs)
    && (w.status == Publishing ==> w.publishingExpiresAt.value <= w.publishingAt.value + leases.publishingMs)
  }

  ghost predicate AllLeased(s: Records, leases: Leases) {
    forall id :: id in s ==> LeasedSince(s[id], leases)
  }

  lemma StepKeepsLeases(w: Work, op: Op, at: Time, leases: Leases)
    requires LeasedSince(w, leases) && UsesLeases(op, leases) && NextWork(w, op, at).Some?
    ensures LeasedSince(NextWork(w, op, at).value, leases)
  {
    StepKeepsShape(w, op, at);
  }

  lemma ApplyKeepsLeases(s: Records, op: Op, at: Time, leases: Leases)
    requires AllLeased(s, leases) && UsesLeases(op, leases)
    ensures AllLeased(Apply(s, op, at), leases) && AllLeased(ScriptApply(s, op, at), leases)
  {
    if Accepts(s, op, at) {
      StepKeepsLeases(s[op.Id()], op, at, leases);
    }
  }

  lemma {:induction false} RunsKeepLeases(s: Records, t: Records, es: seq<Event>, leases: Leases)
    requires AllLeased(s, leases) && AllLeased(t, leases) && AllUseLeases(es, leases)
    ensures AllLeased(MemoryRun(s, es), leases) && AllLeased(ScriptRun(t, es), leases)
    decreases |es|
  {
    if es != [] {
      var e := es[0];
      assert UsesLeases(e.op, leases);
      ApplyKeepsLeases(s, e.op, e.at, leases);
      ApplyKeepsLeases(LiveRecords(t, e.at), e.op, e.at, leases);
      RunsKeepLeases(Apply(s, e.op, e.at), LiveRecords(ScriptApply(LiveRecords(t, e.at), e.op, e.at), e.at), es[1..],
                     leases);
    }
  }

  /**
   * What a claim does to a live work w, leaving v: one that waits in the queue, or whose claim is a
   * lease long ago, is taken over; a publication whose lease is over is given up; one that was begun
   * a lease ago is such a one; an ended work says how it ended; any other is left to whoever has it.
   */
  predicate NotStuck(w: Work, v: Work, answer: Disposition, token: Token, at: Time, leases: Leases) {
    match w.status
    case Queued => answer == Granted(v) && TakenOver(w, v, token, at, leases.claimMs)
    case Claimed =>
      if w.claimedAt.Some? && w.claimedAt.value + leases.claimMs <= at
      then answer == Granted(v) && TakenOver(w, v, token, at, leases.claimMs)
      else answer == Active && v == w
    case Publishing =>
      && w.publishingAt.Some? && w.publishingExpiresAt.Some?
      && (w.publishingAt.value + leases.publishingMs <= at ==> w.publishingExpiresAt.value <= at)
      && if w.publishingExpiresAt.value <= at
         then answer == Settled(Failed, Some(PublicationAbandoned)) && GivenUp(w, v, at)
         else answer == Active && v == w
    case PendingEnqueue => answer == Active && v == w
    case _ => answer == Settled(w.status, w.failureCode) && v == w
  }

  lemma ClaimIsNotStuck(s: Records, id: WorkId, token: Token, at: Time, leases: Leases)
    requires id in s && s[id].expiresAt > at && LeasedSince(s[id], leases)
    ensures var op := Claim(id, token, leases.claimMs);
            && Apply(s, op, at) == s[id := Apply(s, op, at)[id]]
            && NotStuck(s[id], Apply(s, op, at)[id], Answer(s, id, token, leases.claimMs, at), token, at, leases)
  {
  }

  /**
   * No stuck work: after any operations of any callers, in whatever order and at whatever times, a
   * claim of a live work does what NotStuck says and touches no other work. The scripts do so for
   * every work they can read.
   */
  lemma NoStuckWork(es: seq<Event>, id: WorkId, token: Token, at: Time, leases: Leases)
    requires AllUseLeases(es, leases)
    ensures var s := MemoryRun(map[], es);
            var next := Apply(s, Claim(id, token, leases.claimMs), at);
            id in s && s[id].expiresAt > at ==>
              && next == s[id := next[id]]
              && NotStuck(s[id], next[id], Answer(s, id, token, leases.claimMs, at), token, at, leases)
    ensures var s := LiveRecords(ScriptRun(map[], es), at);
            var next := ScriptApply(s, Claim(id, token, leases.claimMs), at);
            id in s && SchemaValid(s[id]) ==>
              && next == s[id := next[id]]
              && NotStuck(s[id], next[id], ScriptAnswer(s, id, token, leases.claimMs, at), token, at, leases)
  {
    RunsKeepLeases(map[], map[], es, leases);
    var memory, scripts := MemoryRun(map[], es), LiveRecords(ScriptRun(map[], es), at);
    if id in memory && memory[id].expiresAt > at {
      ClaimIsNotStuck(memory, id, token, at, leases);
    }
    if id in scripts && SchemaValid(scripts[id]) {
      ClaimIsNotStuck(scripts, id, token, at, leases);
    }
  }

  // ---- What every other operation asks and does ----

  /** The token holds the live work, and less than a lease has passed since it was claimed. */
  predicate HeldBy(w: Work, token: Token, at: Time, leases: Leases) {
    && w.status == Claimed && w.claimId == Some(token) && at < w.expiresAt
    && w.claimedAt.Some? && at < w.claimedAt.value + leases.claimMs
  }

  /** The token publishes the live work, and the lease of the publication is not over. */
  predicate PublishedBy(w: Work, token: Token, at: Time) {
    && w.status == Publishing && w.claimId == Some(token) && at < w.expiresAt
    && w.publishingExpiresAt.Some? && at < w.publishingExpiresAt.value
  }

  /** Who may do it, and when. */
  predicate Permits(w: Work, op: Op, at: Time, leases: Leases) {
    match op
    case MarkEnqueued(_) => w.status == PendingEnqueue && at < w.expiresAt
    case Cancel(_, _) => w.status == PendingEnqueue && at < w.expiresAt
    case Release(_, token) => HeldBy(w, token, at, leases)
    case RecordDescriptor(_, token, d) =>
      HeldBy(w, token, at, leases) && ValidDescriptor(d) && w.uploadDescriptor in {None, Some(d)}
    case RecordAsset(_, token, assetId) =>
      HeldBy(w, token, at, leases) && !IsBlank(assetId) && w.assetId in {None, Some(assetId)}
    case BeginPublishing(_, token, leaseMs, deadline) =>
      HeldBy(w, token, at, leases) && leaseMs > 0 && (deadline.Some? ==> at < deadline.value)
    case Finish(_, token, Complete(_)) => PublishedBy(w, token, at)
    case Finish(_, token, Fail(_)) => HeldBy(w, token, at, leases) || PublishedBy(w, token, at)
    case ClearUpdate(_) => w.status in {Completed, Failed} && w.pendingJobUpdate != None
    case _ => false
  }

  /** v is w with the operation done. */
  predicate DoneTo(w: Work, v: Work, op: Op, at: Time) {
    match op
    case MarkEnqueued(_) => v == w.(status := Queued)
    case Cancel(_, code) => v == w.(status := Failed, failureCode := Some(code), completedAt := Some(at))
    case Release(_, _) => v == w.(status := Queued, claimedAt := None, claimId := None, claimExpiresAt := None)
    case RecordDescriptor(_, _, d) => v == w.(uploadDescriptor := Some(d))
    case RecordAsset(_, _, assetId) => v == w.(assetId := Some(assetId))
    case BeginPublishing(_, _, _, _) =>
      v == w.(status := Publishing, claimExpiresAt := None, publishingAt := Some(at),
              publishingExpiresAt := v.publishingExpiresAt)
    case Finish(_, _, Complete(result)) =>
      v == w.(status := Completed, completedAt := Some(at), claimId := None, claimExpiresAt := None,
              pendingJobUpdate := Some(JobCompleted(result)))
    case Finish(_, _, Fail(code)) =>
      v == w.(status := Failed, failureCode := Some(code), completedAt := Some(at), claimId := None,
              claimExpiresAt := None, pendingJobUpdate := Some(JobFailed(code)))
    case ClearUpdate(_) => v == w.(pendingJobUpdate := None)
    case _ => false
  }

  lemma OperationsDoAsAsked(w: Work, op: Op, at: Time, leases: Leases)
    requires LeasedSince(w, leases) && !op.Create? && !op.Forget? && !op.Claim?
    ensures NextWork(w, op, at).Some? <==> Permits(w, op, at, leases)
    ensures NextWork(w, op, at).Some? ==> DoneTo(w, NextWork(w, op, at).value, op, at)
  {
    if op.BeginPublishing? {
      BoundedExpiryIsLatest(at, op.leaseMs, w.expiresAt, op.deadline, at + 1);
    }
  }

  /** next is s with the operation done to its one work, or as it was when the operation is not permitted. */
  predicate DoesAsAsked(s: Records, next: Records, op: Op, at: Time, leases: Leases)
    requires !op.Create?
  {
    if op.id in s && Permits(s[op.id], op, at, leases)
    then op.id in next && next == s[op.id := next[op.id]] && DoneTo(s[op.id], next[op.id], op, at)
    else next == s
  }

  lemma ApplyDoesAsAsked(s: Records, op: Op, at: Time, leases: Leases)
    requires AllLeased(s, leases) && !op.Create? && !op.Forget? && !op.Claim?
    ensures DoesAsAsked(s, Apply(s, op, at), op, at, leases)
  {
    if op.id in s {
      OperationsDoAsAsked(s[op.id], op, at, leases);
    }
  }

  /**
   * After any operations of any callers a store does exactly what an operation may do at that time,
   * to that one work, and refuses it otherwise without a change; the scripts do so for every work
   * they can read, and change no other.
   */
  lemma StoresDoAsAsked(es: seq<Event>, op: Op, at: Time, leases: Leases)
    requires AllUseLeases(es, leases) && !op.Create? && !op.Forget? && !op.Claim?
    ensures var s := MemoryRun(map[], es); DoesAsAsked(s, Apply(s, op, at), op, at, leases)
    ensures var s := LiveRecords(ScriptRun(map[], es), at);
            if op.id in s && !SchemaValid(s[op.id]) then ScriptApply(s, op, at) == s
            else DoesAsAsked(s, ScriptApply(s, op, at), op, at, leases)
  {
    RunsKeepLeases(map[], map[], es, leases);
    ApplyDoesAsAsked(MemoryRun(map[], es), op, at, leases);
    ApplyDoesAsAsked(LiveRecords(ScriptRun(map[], es), at), op, at, leases);
  }
}
