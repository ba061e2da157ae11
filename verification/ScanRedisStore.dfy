/**
 * RedisAttachmentScanWorkStore of src/attachments/scan-work-store.ts. Each Lua script is one
 * atomic method over the keys and the pending index; its contract states that it performs the
 * same ScanWork operation as the in-memory store, on the records that are still live.
 */
module ScanRedisStore {
  import opened Basics
  import opened ScanWork

  /** A stored value and the time at which Redis drops the key. */
  datatype Entry = Entry(work: Work, deadline: Time)

  /** The text fields the scripts insist on; ids and tokens are opaque and never empty. */
  predicate SchemaValid(w: Work) {
    && w.lineMessageId != ""
    && w.scope.profileName != "" && w.scope.sourceKey != ""
    && w.scope.requesterUserId.Some? && w.scope.requesterUserId.value != ""
    && w.target.sourceKey != "" && w.target.itemKind != "" && w.target.domain != "" && w.target.title != ""
    && (w.assetId.Some? ==> w.assetId.value != "")
    && (w.uploadDescriptor.Some? ==> ValidDescriptor(w.uploadDescriptor.value))
  }

  function LiveRecords(s: Records, at: Time): Records {
    map id | id in s && s[id].expiresAt > at :: s[id]
  }

  /** beginPublishing when the lease end was computed outside the script. */
  function BeginUntil(w: Work, token: Token, at: Time, until: Time): Option<Work> {
    if LiveClaim(w, token, at) && until > at
    then Some(w.(status := Publishing, claimExpiresAt := None, publishingAt := Some(at),
                 publishingExpiresAt := Some(until)))
    else None
  }

  /** The pending index after an operation on these live records. */
  function IndexAfter(index: set<WorkId>, s: Records, op: Op, at: Time): set<WorkId> {
    if op.Create? then index + {op.work.id}
    else if !Accepts(s, op, at) then index
    else if op.MarkEnqueued? || op.Cancel? || op.Finish? || (op.Claim? && Abandonable(s[op.id], at))
    then index - {op.id}
    else index
  }

  /** The scripts' early exit: they touch no work that fails the schema test. Creation and key expiry have none. */
  predicate Unread(s: Records, op: Op) {
    !op.Create? && !op.Forget? && op.Id() in s && !SchemaValid(s[op.Id()])
  }

  function ScriptApply(s: Records, op: Op, at: Time): Records {
    if Unread(s, op) then s else Apply(s, op, at)
  }

  predicate ScriptAccepts(s: Records, op: Op, at: Time) {
    !Unread(s, op) && Accepts(s, op, at)
  }

  function ScriptIndex(index: set<WorkId>, s: Records, op: Op, at: Time): set<WorkId> {
    if Unread(s, op) then index else IndexAfter(index, s, op, at)
  }

  function ScriptAnswer(s: Records, id: WorkId, token: Token, leaseMs: nat, at: Time): Disposition {
    if id in s && !SchemaValid(s[id]) then Missing else Answer(s, id, token, leaseMs, at)
  }

  class RedisAttachmentScanWorkStore {
    var keys: map<WorkId, Entry>
    var index: set<WorkId>
    const claimLeaseMs: nat
    const publishingLeaseMs: nat

    constructor (claimLeaseMs: nat, publishingLeaseMs: nat)
      ensures Valid() && keys == map[] && index == {}
      ensures this.claimLeaseMs == claimLeaseMs && this.publishingLeaseMs == publishingLeaseMs
    {
      keys, index := map[], {};
      this.claimLeaseMs, this.publishingLeaseMs := claimLeaseMs, publishingLeaseMs;
    }

    /** A key never dies before its work expires. */
    ghost predicate Valid()
      reads this
    {
      forall id :: id in keys ==> keys[id].work.id == id && keys[id].work.expiresAt <= keys[id].deadline
    }

    /** The works that are neither dropped nor expired at this time. */
    ghost function View(at: Time): Records
      reads this
    {
      map id | id in keys && keys[id].deadline > at && keys[id].work.expiresAt > at :: keys[id].work
    }

    ghost predicate Readable(id: WorkId)
      reads this
    {
      id in keys ==> SchemaValid(keys[id].work)
    }

    method CreateScript(work: Work, at: Time)
      requires Valid() && IsNew(work)
      modifies this
      ensures Valid()
      ensures work.expiresAt > at ==> View(at) == Apply(old(View(at)), Create(work), at)
      ensures index == IndexAfter(old(index), old(View(at)), Create(work), at)
    {
      var ttl := Max(1, work.expiresAt - at);
      keys := keys[work.id := Entry(work, at + ttl)];
      index := index + {work.id};
    }

    /** GET, decode and validate; None is the script's early exit. */
    method Load(id: WorkId, at: Time) returns (r: Option<Entry>)
      ensures r.Some? <==> id in keys && keys[id].deadline > at && SchemaValid(keys[id].work)
      ensures r.Some? ==> r.value == keys[id]
    {
      if id !in keys || keys[id].deadline <= at { return None; }
      if !SchemaValid(keys[id].work) { return None; }
      return Some(keys[id]);
    }

    /** PSETEX with the key's own remaining life. */
    method Save(work: Work, ttl: nat, at: Time)
      requires Valid() && ttl > 0 && work.id in keys && keys[work.id].deadline == at + ttl
      requires work.expiresAt == keys[work.id].work.expiresAt
      modifies this`keys
      ensures Valid()
      ensures View(at) == if work.expiresAt > at then old(View(at))[work.id := work] else old(View(at))
    {
      keys := keys[work.id := Entry(work, at + ttl)];
    }

    /** The branch of the claim script that gives up a publication whose lease has lapsed. */
    method Abandon(work: Work, ttl: nat, at: Time) returns (r: Work)
      requires Valid() && ttl > 0 && work.id in keys && keys[work.id].deadline == at + ttl
      requires keys[work.id].work == work && work.expiresAt > at
      modifies this
      ensures Valid() && r == Ended(work, Fail(PublicationAbandoned), at)
      ensures View(at) == old(View(at))[work.id := r] && index == old(index) - {work.id}
    {
      r := work.(status := Failed, failureCode := Some(PublicationAbandoned), completedAt := Some(at),
                 claimId := None, claimExpiresAt := None,
                 pendingJobUpdate := Some(JobFailed(PublicationAbandoned)));
      Save(r, ttl, at);
      index := index - {r.id};
    }

    method ClaimScript(id: WorkId, token: Token, at: Time) returns (answer: Disposition)
      requires Valid()
      modifies this
      ensures Valid()
      ensures answer == ScriptAnswer(old(View(at)), id, token, claimLeaseMs, at)
      ensures View(at) == ScriptApply(old(View(at)), Claim(id, token, claimLeaseMs), at)
      ensures index == ScriptIndex(old(index), old(View(at)), Claim(id, token, claimLeaseMs), at)
      ensures id in old(View(at)) && old(Readable(id)) ==>
                id in View(at) && View(at) == old(View(at))[id := View(at)[id]] &&
                ClaimDoes(old(View(at))[id], View(at)[id], answer, token, at, claimLeaseMs)
      ensures id !in old(View(at)) || !old(Readable(id)) ==> answer == Missing && keys == old(keys)
    {
      var loaded := Load(id, at);
      if loaded.None? { return Missing; }
      var work := loaded.value.work;
      if work.id != id || work.expiresAt <= at { return Missing; }
      if work.status == Completed || work.status == Failed { return Settled(work.status, work.failureCode); }
      var ttl := loaded.value.deadline - at;
      if work.status == Publishing {
        if work.publishingExpiresAt.None? || work.publishingExpiresAt.value > at { return Active; }
        if ttl <= 0 { return Missing; }
        work := Abandon(work, ttl, at);
        return Settled(Failed, work.failureCode);
      }
      var claimable := work.status == Queued ||
                       (work.status == Claimed && work.claimExpiresAt.Some? && work.claimExpiresAt.value <= at);
      if !claimable { return Active; }
      if ttl <= 0 { return Missing; }
      work := work.(status := Claimed, claimedAt := Some(at), claimId := Some(token),
                    claimExpiresAt := Some(at + claimLeaseMs), publishingAt := None, publishingExpiresAt := None);
      Save(work, ttl, at);
      return Granted(work);
    }

    method BeginPublishingScript(id: WorkId, token: Token, at: Time, until: Time) returns (ok: bool)
      requires Valid()
      modifies this
      ensures Valid() && index == old(index)
      ensures ok == (old(Readable(id)) && id in old(View(at)) && BeginUntil(old(View(at))[id], token, at, until).Some?)
      ensures ok ==> View(at) == old(View(at))[id := BeginUntil(old(View(at))[id], token, at, until).value]
      ensures !ok ==> keys == old(keys)
    {
      var loaded := Load(id, at);
      if loaded.None? { return false; }
      var work := loaded.value.work;
      if work.id != id || work.status != Claimed || work.claimId != Some(token) || work.claimExpiresAt.None? ||
         work.claimExpiresAt.value <= at || work.expiresAt <= at || until <= at {
        return false;
      }
      var ttl := loaded.value.deadline - at;
      if ttl <= 0 { return false; }
      work := work.(status := Publishing, publishingAt := Some(at), publishingExpiresAt := Some(until),
                    claimExpiresAt := None);
      Save(work, ttl, at);
      return true;
    }

    /** read: the work, unless it is missing, malformed or expired. */
    method Read(id: WorkId, at: Time) returns (r: Option<Work>)
      requires Valid()
      ensures Readable(id) ==> r == if id in View(at) then Some(View(at)[id]) else None
      ensures !Readable(id) ==> r == None
    {
      var loaded := Load(id, at);
      if loaded.None? || loaded.value.work.expiresAt <= at { return None; }
      return Some(loaded.value.work);
    }

    method BeginPublishingWork(id: WorkId, token: Token, deadline: Option<Time>, at: Time) returns (ok: bool)
      requires Valid()
      modifies this
      ensures Valid() && index == old(index)
      ensures ok == ScriptAccepts(old(View(at)), BeginPublishing(id, token, publishingLeaseMs, deadline), at)
      ensures View(at) == ScriptApply(old(View(at)), BeginPublishing(id, token, publishingLeaseMs, deadline), at)
    {
      var work := Read(id, at);
      if work.None? { return false; }
      ok := BeginPublishingScript(id, token, at, BoundedExpiry(at, publishingLeaseMs, work.value.expiresAt, deadline));
    }

    method RecordAssetScript(id: WorkId, token: Token, assetId: string, at: Time) returns (ok: bool)
      requires Valid()
      modifies this
      ensures Valid() && index == old(index)
      ensures ok == ScriptAccepts(old(View(at)), RecordAsset(id, token, assetId), at)
      ensures View(at) == ScriptApply(old(View(at)), RecordAsset(id, token, assetId), at)
    {
      if IsBlank(assetId) { return false; }
      var loaded := Load(id, at);
      if loaded.None? { return false; }
      var work := loaded.value.work;
      if work.id != id || work.status != Claimed || work.claimId != Some(token) || work.claimExpiresAt.None? ||
         work.claimExpiresAt.value <= at || work.expiresAt <= at ||
         (work.assetId.Some? && work.assetId.value != assetId) {
        return false;
      }
      var ttl := loaded.value.deadline - at;
      if ttl <= 0 { return false; }
      Save(work.(assetId := Some(assetId)), ttl, at);
      return true;
    }

    method RecordUploadDescriptorScript(id: WorkId, token: Token, descriptor: Descriptor, at: Time) returns (ok: bool)
      requires Valid()
      modifies this
      ensures Valid() && index == old(index)
      ensures ok == ScriptAccepts(old(View(at)), RecordDescriptor(id, token, descriptor), at)
      ensures View(at) == ScriptApply(old(View(at)), RecordDescriptor(id, token, descriptor), at)
    {
      if !ValidDescriptor(descriptor) { return false; }
      var loaded := Load(id, at);
      if loaded.None? { return false; }
      var work := loaded.value.work;
      if work.id != id || work.status != Claimed || work.claimId != Some(token) || work.claimExpiresAt.None? ||
         work.claimExpiresAt.value <= at || work.expiresAt <= at ||
         (work.uploadDescriptor.Some? && work.uploadDescriptor.value != descriptor) {
        return false;
      }
      var ttl := loaded.value.deadline - at;
      if ttl <= 0 { return false; }
      Save(work.(uploadDescriptor := Some(descriptor)), ttl, at);
      return true;
    }

    method ReleaseScript(id: WorkId, token: Token, at: Time) returns (ok: bool)
      requires Valid()
      modifies this
      ensures Valid() && index == old(index)
      ensures ok == ScriptAccepts(old(View(at)), Release(id, token), at)
      ensures View(at) == ScriptApply(old(View(at)), Release(id, token), at)
    {
      var loaded := Load(id, at);
      if loaded.None? { return false; }
      var work := loaded.value.work;
      if work.id != id || work.status != Claimed || work.claimId != Some(token) || work.claimExpiresAt.None? ||
         work.claimExpiresAt.value <= at || work.expiresAt <= at {
        return false;
      }
      var ttl := loaded.value.deadline - at;
      if ttl <= 0 { return false; }
      Save(work.(status := Queued, claimedAt := None, claimId := None, claimExpiresAt := None), ttl, at);
      return true;
    }

    method MarkEnqueuedScript(id: WorkId, at: Time) returns (ok: bool)
      requires Valid()
      modifies this
      ensures Valid()
      ensures ok == ScriptAccepts(old(View(at)), MarkEnqueued(id), at)
      ensures View(at) == ScriptApply(old(View(at)), MarkEnqueued(id), at)
      ensures index == ScriptIndex(old(index), old(View(at)), MarkEnqueued(id), at)
    {
      var loaded := Load(id, at);
      if loaded.None? { return false; }
      var work := loaded.value.work;
      if work.id != id || work.status != PendingEnqueue || work.expiresAt <= at { return false; }
      var ttl := loaded.value.deadline - at;
      if ttl <= 0 { return false; }
      Save(work.(status := Queued), ttl, at);
      index := index - {work.id};
      return true;
    }

    method CancelScript(id: WorkId, code: FailureCode, at: Time) returns (ok: bool)
      requires Valid()
      modifies this
      ensures Valid()
      ensures ok == ScriptAccepts(old(View(at)), Cancel(id, code), at)
      ensures View(at) == ScriptApply(old(View(at)), Cancel(id, code), at)
      ensures index == ScriptIndex(old(index), old(View(at)), Cancel(id, code), at)
    {
      var loaded := Load(id, at);
      if loaded.None? { return false; }
      var work := loaded.value.work;
      if work.id != id || work.status != PendingEnqueue || work.expiresAt <= at { return false; }
      var ttl := loaded.value.deadline - at;
      if ttl <= 0 { return false; }
      Save(work.(status := Failed, failureCode := Some(code), completedAt := Some(at)), ttl, at);
      index := index - {work.id};
      return true;
    }

    method TerminalTransitionScript(id: WorkId, token: Token, ending: Ending, at: Time) returns (ok: bool)
      requires Valid()
      modifies this
      ensures Valid()
      ensures ok == ScriptAccepts(old(View(at)), Finish(id, token, ending), at)
      ensures View(at) == ScriptApply(old(View(at)), Finish(id, token, ending), at)
      ensures index == ScriptIndex(old(index), old(View(at)), Finish(id, token, ending), at)
    {
      var loaded := Load(id, at);
      if loaded.None? { return false; }
      var work := loaded.value.work;
      var ownsClaim :=
        work.id == id && work.claimId == Some(token) &&
        ((ending.Complete? && work.status == Publishing && work.publishingExpiresAt.Some? &&
          work.publishingExpiresAt.value > at) ||
         (ending.Fail? &&
          ((work.status == Claimed && work.claimExpiresAt.Some? && work.claimExpiresAt.value > at) ||
           (work.status == Publishing && work.publishingExpiresAt.Some? && work.publishingExpiresAt.value > at))));
      if !ownsClaim || work.expiresAt <= at { return false; }
      var ttl := loaded.value.deadline - at;
      if ttl <= 0 { return false; }
      work := work.(status := if ending.Complete? then Completed else Failed, completedAt := Some(at),
                    claimId := None, claimExpiresAt := None);
      if ending.Fail? {
        work := work.(failureCode := Some(ending.code));
      }
      work := work.(pendingJobUpdate := Some(UpdateOf(ending)));
      Save(work, ttl, at);
      index := index - {work.id};
      return true;
    }

    method ClearPendingJobUpdateScript(id: WorkId, at: Time)
      requires Valid()
      modifies this
      ensures Valid() && index == old(index)
      ensures View(at) == ScriptApply(old(View(at)), ClearUpdate(id), at)
    {
      var loaded := Load(id, at);
      if loaded.None? { return; }
      var work := loaded.value.work;
      if work.id != id || (work.status != Completed && work.status != Failed) || work.pendingJobUpdate.None? {
        return;
      }
      var ttl := loaded.value.deadline - at;
      if ttl <= 0 { return; }
      Save(work.(pendingJobUpdate := None), ttl, at);
    }
  }

  // ---- The two stores agree ----

  /** Only the report of a terminal update still touches an expired record. */
  lemma ExpiredRefuses(w: Work, op: Op, at: Time)
    requires w.expiresAt <= at && !op.ClearUpdate?
    ensures NextWork(w, op, at).None?
  {
  }

  /**
   * beginPublishing reads expiresAt before it runs its script. Whatever legal run of other callers
   * falls between, the script does exactly what one atomic beginPublishing would do there.
   */
  lemma ReadBeforeScriptIsSafe(st: Store, es: seq<Event>, id: WorkId, token: Token, leaseMs: nat,
                               deadline: Option<Time>, at: Time)
    requires Consistent(st) && LegalRun(st, es) && id in st.records
    requires id in Run(st, es).records
    ensures BeginUntil(Run(st, es).records[id], token, at,
                       BoundedExpiry(at, leaseMs, st.records[id].expiresAt, deadline))
            == NextWork(Run(st, es).records[id], BeginPublishing(id, token, leaseMs, deadline), at)
  {
    RunEvolves(st, es);
    assert Evolves(st.records[id], Run(st, es).records[id]);
  }
}
