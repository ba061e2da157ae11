/**
 * Attachment scan works as a leased, token-fenced state machine: the record, what each store
 * operation does to one record, and what no run of operations can do to it.
 * Models src/attachments/scan-work-store.ts and src/attachments/scan-timing.ts.
 */
module ScanWork {
  import opened Basics
  import Jobs

  type WorkId = nat
  type Token = nat

  const MINUTE_MS: nat := 60_000
  const PUBLICATION_LEASE_MS: nat := 14 * MINUTE_MS
  const REPLICA_TIMEOUT_MS: nat := 30 * MINUTE_MS
  const CLAIM_LEASE_MS: nat := 35 * MINUTE_MS

  datatype Status = PendingEnqueue | Queued | Claimed | Publishing | Completed | Failed

  datatype FailureCode =
    | EnqueueFailed | DownloadFailed | ValidationFailed | ScanInfected | ScanUnavailable
    | SignatureStale | PublishFailed | PublicationAbandoned | WorkerFailed

  datatype Target = Target(sourceKey: string, itemKind: string, domain: string, title: string)

  datatype Descriptor = Descriptor(fileName: string, mimeType: string, sizeBytes: nat, checksumSha256: string)

  datatype Update = JobCompleted(result: Jobs.ExecResult) | JobFailed(error: FailureCode)

  datatype Work = Work(
    id: WorkId, jobId: Jobs.JobId, lineMessageId: string,
    assetId: Option<string>, uploadDescriptor: Option<Descriptor>,
    scope: Jobs.Scope, target: Target,
    status: Status, failureCode: Option<FailureCode>,
    createdAt: Time, claimedAt: Option<Time>, claimId: Option<Token>, claimExpiresAt: Option<Time>,
    publishingAt: Option<Time>, publishingExpiresAt: Option<Time>,
    pendingJobUpdate: Option<Update>, completedAt: Option<Time>, expiresAt: Time)

  type Records = map<WorkId, Work>

  /** How a worker ends its claim. */
  datatype Ending = Complete(result: Jobs.ExecResult) | Fail(code: FailureCode)

  datatype Op =
    | Create(work: Work)
    | Forget(id: WorkId)        // an expired record disappears, lazily or by key expiry
    | MarkEnqueued(id: WorkId)
    | Claim(id: WorkId, token: Token, leaseMs: nat)
    | BeginPublishing(id: WorkId, token: Token, leaseMs: nat, deadline: Option<Time>)
    | RecordDescriptor(id: WorkId, token: Token, descriptor: Descriptor)
    | RecordAsset(id: WorkId, token: Token, assetId: string)
    | Release(id: WorkId, token: Token)
    | Cancel(id: WorkId, code: FailureCode)
    | Finish(id: WorkId, token: Token, ending: Ending)
    | ClearUpdate(id: WorkId)
  {
    function Id(): WorkId {
      if Create? then work.id else id
    }

    predicate IsTokenOp() {
      BeginPublishing? || RecordDescriptor? || RecordAsset? || Release? || Finish?
    }
  }

  predicate Terminal(w: Work) {
    w.status == Completed || w.status == Failed
  }

  function NewWork(id: WorkId, jobId: Jobs.JobId, lineMessageId: string, scope: Jobs.Scope, target: Target,
                   ttlMs: nat, at: Time): Work {
    Work(id, jobId, lineMessageId, None, None, scope, target, PendingEnqueue, None, at, None, None, None, None, None,
         None, None, at + ttlMs)
  }

  predicate IsNew(w: Work) {
    w == Work(w.id, w.jobId, w.lineMessageId, None, None, w.scope, w.target, PendingEnqueue, None, w.createdAt,
              None, None, None, None, None, None, None, w.expiresAt)
  }

  predicate IsHexDigit(c: char) {
    '0' <= c <= '9' || 'a' <= c <= 'f'
  }

  predicate ValidDescriptor(d: Descriptor) {
    d.fileName != "" && d.mimeType != "" && d.sizeBytes > 0 && |d.checksumSha256| == 64 &&
    forall i :: 0 <= i < 64 ==> IsHexDigit(d.checksumSha256[i])
  }

  function BoundedExpiry(start: Time, leaseMs: nat, workExpiresAt: Time, deadline: Option<Time>): Time {
    var bound := Min(start + leaseMs, workExpiresAt);
    if deadline.Some? then Min(bound, deadline.value) else bound
  }

  // ---- One record under one operation at time at; None is a refusal ----

  predicate LiveClaim(w: Work, token: Token, at: Time) {
    && w.status == Claimed
    && w.claimId == Some(token)
    && w.claimExpiresAt.Some? && w.claimExpiresAt.value > at
    && w.expiresAt > at
  }

  predicate LivePublication(w: Work, token: Token, at: Time) {
    && w.status == Publishing
    && w.claimId == Some(token)
    && w.publishingExpiresAt.Some? && w.publishingExpiresAt.value > at
    && w.expiresAt > at
  }

  predicate Claimable(w: Work, at: Time) {
    && w.expiresAt > at
    && (w.status == Queued || (w.status == Claimed && w.claimExpiresAt.Some? && w.claimExpiresAt.value <= at))
  }

  predicate Abandonable(w: Work, at: Time) {
    w.expiresAt > at && w.status == Publishing && w.publishingExpiresAt.Some? && w.publishingExpiresAt.value <= at
  }

  function ClaimedBy(w: Work, token: Token, leaseMs: nat, at: Time): Work {
    w.(status := Claimed, claimedAt := Some(at), claimId := Some(token), claimExpiresAt := Some(at + leaseMs),
       publishingAt := None, publishingExpiresAt := None)
  }

  function UpdateOf(ending: Ending): Update {
    match ending
    case Complete(result) => JobCompleted(result)
    case Fail(code) => JobFailed(code)
  }

  function Ended(w: Work, ending: Ending, at: Time): Work {
    w.(status := if ending.Complete? then Completed else Failed,
       failureCode := if ending.Fail? then Some(ending.code) else w.failureCode,
       completedAt := Some(at), claimId := None, claimExpiresAt := None,
       pendingJobUpdate := Some(UpdateOf(ending)))
  }

  function NextWork(w: Work, op: Op, at: Time): Option<Work> {
    match op
    case Create(_) => None
    case Forget(_) => None
    case MarkEnqueued(_) =>
      if w.expiresAt > at && w.status == PendingEnqueue then Some(w.(status := Queued)) else None
    case Claim(_, token, leaseMs) =>
      if Claimable(w, at) then Some(ClaimedBy(w, token, leaseMs, at))
      else if Abandonable(w, at) then Some(Ended(w, Fail(PublicationAbandoned), at))
      else None
    case BeginPublishing(_, token, leaseMs, deadline) =>
      var until := BoundedExpiry(at, leaseMs, w.expiresAt, deadline);
      if LiveClaim(w, token, at) && until > at
      then Some(w.(status := Publishing, claimExpiresAt := None, publishingAt := Some(at),
                   publishingExpiresAt := Some(until)))
      else None
    case RecordDescriptor(_, token, descriptor) =>
      if ValidDescriptor(descriptor) && LiveClaim(w, token, at) &&
         (w.uploadDescriptor.None? || w.uploadDescriptor == Some(descriptor))
      then Some(w.(uploadDescriptor := Some(descriptor))) else None
    case RecordAsset(_, token, assetId) =>
      if !IsBlank(assetId) && LiveClaim(w, token, at) && (w.assetId.None? || w.assetId == Some(assetId))
      then Some(w.(assetId := Some(assetId))) else None
    case Release(_, token) =>
      if LiveClaim(w, token, at)
      then Some(w.(status := Queued, claimedAt := None, claimId := None, claimExpiresAt := None)) else None
    case Cancel(_, code) =>
      if w.expiresAt > at && w.status == PendingEnqueue
      then Some(w.(status := Failed, failureCode := Some(code), completedAt := Some(at))) else None
    case Finish(_, token, ending) =>
      if LivePublication(w, token, at) || (ending.Fail? && LiveClaim(w, token, at))
      then Some(Ended(w, ending, at)) else None
    case ClearUpdate(_) =>
      if Terminal(w) && w.pendingJobUpdate.Some? then Some(w.(pendingJobUpdate := None)) else None
  }

  // ---- The records as a map ----

  predicate Accepts(s: Records, op: Op, at: Time) {
    op.Id() in s && NextWork(s[op.Id()], op, at).Some?
  }

  /** The records once an expired one under this id is dropped. */
  function Dropped(s: Records, id: WorkId, at: Time): Records {
    if id in s && s[id].expiresAt <= at then s - {id} else s
  }

  function Apply(s: Records, op: Op, at: Time): Records {
    match op
    case Create(work) => s[work.id := work]
    case Forget(id) => Dropped(s, id, at)
    case _ => if Accepts(s, op, at) then s[op.Id() := NextWork(s[op.Id()], op, at).value] else s
  }

  /** The answer of claimForProcessing. */
  datatype Disposition =
    | Granted(work: Work)
    | Active
    | Settled(terminalStatus: Status, failureCode: Option<FailureCode>)
    | Missing

  function Answer(s: Records, id: WorkId, token: Token, leaseMs: nat, at: Time): Disposition {
    if id !in s || s[id].expiresAt <= at then Missing
    else if Terminal(s[id]) then Settled(s[id].status, s[id].failureCode)
    else if Abandonable(s[id], at) then Settled(Failed, Some(PublicationAbandoned))
    else if Claimable(s[id], at) then Granted(ClaimedBy(s[id], token, leaseMs, at))
    else Active
  }

  /** v is w, held under this token from now on. */
  predicate TakenOver(w: Work, v: Work, token: Token, at: Time, claimMs: nat) {
    v == w.(status := Claimed, claimedAt := Some(at), claimId := Some(token), claimExpiresAt := Some(at + claimMs))
         .(publishingAt := None, publishingExpiresAt := None)
  }

  /** v is w, ended because its publication was abandoned, with the report of that still to be made. */
  predicate GivenUp(w: Work, v: Work, at: Time) {
    v == w.(status := Failed, failureCode := Some(PublicationAbandoned), completedAt := Some(at), claimId := None,
            claimExpiresAt := None, pendingJobUpdate := Some(JobFailed(PublicationAbandoned)))
  }

  /** What a claim owes a live work w, by the leases it carries: it leaves v. */
  predicate ClaimDoes(w: Work, v: Work, answer: Disposition, token: Token, at: Time, claimMs: nat) {
    match w.status
    case Queued => answer == Granted(v) && TakenOver(w, v, token, at, claimMs)
    case Claimed =>
      if w.claimExpiresAt.Some? && w.claimExpiresAt.value <= at
      then answer == Granted(v) && TakenOver(w, v, token, at, claimMs) else answer == Active && v == w
    case Publishing =>
      if w.publishingExpiresAt.Some? && w.publishingExpiresAt.value <= at
      then answer == Settled(Failed, Some(PublicationAbandoned)) && GivenUp(w, v, at) else answer == Active && v == w
    case PendingEnqueue => answer == Active && v == w
    case _ => answer == Settled(w.status, w.failureCode) && v == w
  }

  // ---- What one record can become ----

  ghost predicate SameIdentity(w: Work, v: Work) {
    (v.id, v.jobId, v.lineMessageId, v.scope, v.target, v.createdAt, v.expiresAt) ==
    (w.id, w.jobId, w.lineMessageId, w.scope, w.target, w.createdAt, w.expiresAt)
  }

  /**
   * v may follow w: identity and expiry never change, the descriptor and the asset are written
   * once, pending_enqueue is never re-entered, publishing is left only for a terminal status,
   * and a terminal record changes only by losing its reported job update.
   */
  ghost predicate Evolves(w: Work, v: Work) {
    && SameIdentity(w, v)
    && (w.uploadDescriptor.Some? ==> v.uploadDescriptor == w.uploadDescriptor)
    && (w.assetId.Some? ==> v.assetId == w.assetId)
    && (w.status != PendingEnqueue ==> v.status != PendingEnqueue)
    && (w.status == Publishing ==> v == w || Terminal(v))
    && (Terminal(w) ==> v == w || v == w.(pendingJobUpdate := None))
  }

  lemma StepEvolves(w: Work, op: Op, at: Time)
    requires NextWork(w, op, at).Some?
    ensures Evolves(w, NextWork(w, op, at).value)
  {
  }

  lemma EvolvesTransitive(u: Work, v: Work, w: Work)
    requires Evolves(u, v) && Evolves(v, w)
    ensures Evolves(u, w)
  {
  }

  // ---- Whole runs of a store, every operation of any caller at any time ----

  /** A store with the ids and tokens ever handed out; both are fresh each time. */
  datatype Store = Store(records: Records, created: set<WorkId>, tokens: set<Token>)

  datatype Event = Event(op: Op, at: Time)

  predicate Legal(st: Store, e: Event) {
    && (e.op.Create? ==> IsNew(e.op.work) && e.op.work.id !in st.created)
    && (e.op.Claim? ==> e.op.token !in st.tokens)
  }

  function After(st: Store, e: Event): Store {
    Store(Apply(st.records, e.op, e.at),
          if e.op.Create? then st.created + {e.op.work.id} else st.created,
          if e.op.Claim? then st.tokens + {e.op.token} else st.tokens)
  }

  function Run(st: Store, es: seq<Event>): Store
    decreases |es|
  {
    if es == [] then st else Run(After(st, es[0]), es[1..])
  }

  predicate LegalRun(st: Store, es: seq<Event>)
    decreases |es|
  {
    es == [] || (Legal(st, es[0]) && LegalRun(After(st, es[0]), es[1..]))
  }

  ghost predicate Consistent(st: Store) {
    && st.records.Keys <= st.created
    && (forall id :: id in st.records ==> st.records[id].id == id)
    && (forall id :: id in st.records && st.records[id].claimId.Some? ==> st.records[id].claimId.value in st.tokens)
  }

  lemma AfterConsistent(st: Store, e: Event)
    requires Consistent(st) && Legal(st, e)
    ensures Consistent(After(st, e))
  {
  }

  /** Every record of one store is absent from, or evolved in, a later one; gone ids stay gone. */
  ghost predicate StoreEvolves(s: Store, t: Store) {
    && s.created <= t.created && s.tokens <= t.tokens
    && (forall id :: id in s.created && id in t.records ==> id in s.records && Evolves(s.records[id], t.records[id]))
  }

  lemma AfterEvolves(st: Store, e: Event)
    requires Consistent(st) && Legal(st, e)
    ensures StoreEvolves(st, After(st, e))
  {
    forall id | id in st.created && id in After(st, e).records
      ensures id in st.records && Evolves(st.records[id], After(st, e).records[id])
    {
      if Accepts(st.records, e.op, e.at) && e.op.Id() == id {
        StepEvolves(st.records[id], e.op, e.at);
      }
    }
  }

  /**
   * In any legal run of any callers, at any times: no record changes its identity or expiry, a
   * recorded descriptor or asset is never replaced, publishing never returns to queued or
   * claimed, terminal statuses are absorbing, and a vanished id never comes back.
   */
  lemma {:induction false} RunEvolves(st: Store, es: seq<Event>)
    requires Consistent(st) && LegalRun(st, es)
    ensures Consistent(Run(st, es)) && StoreEvolves(st, Run(st, es))
    decreases |es|
  {
    if es != [] {
      var mid := After(st, es[0]);
      AfterConsistent(st, es[0]);
      AfterEvolves(st, es[0]);
      RunEvolves(mid, es[1..]);
      var end := Run(st, es);
      forall id | id in st.created && id in end.records
        ensures id in st.records && Evolves(st.records[id], end.records[id])
      {
        EvolvesTransitive(st.records[id], mid.records[id], end.records[id]);
      }
    }
  }

  // ---- Fencing ----

  /** The token was handed out and is not the one the work is held by. */
  predicate Superseded(st: Store, id: WorkId, token: Token) {
    token in st.tokens && (id in st.records ==> st.records[id].claimId != Some(token))
  }

  lemma {:induction false} SupersededForever(st: Store, es: seq<Event>, id: WorkId, token: Token)
    requires Consistent(st) && LegalRun(st, es) && Superseded(st, id, token)
    ensures Superseded(Run(st, es), id, token)
    decreases |es|
  {
    if es != [] {
      AfterConsistent(st, es[0]);
      SupersededForever(After(st, es[0]), es[1..], id, token);
    }
  }

  /**
   * Fencing: once a token no longer holds its work, because it was released, finished, abandoned
   * or reclaimed, every later operation with it is refused and changes nothing, after any run.
   */
  lemma FencedForever(st: Store, es: seq<Event>, op: Op, at: Time)
    requires Consistent(st) && LegalRun(st, es)
    requires op.IsTokenOp() && Superseded(st, op.Id(), op.token)
    ensures !Accepts(Run(st, es).records, op, at)
    ensures Apply(Run(st, es).records, op, at) == Run(st, es).records
  {
    SupersededForever(st, es, op.Id(), op.token);
  }

  /** Giving up a claim in any way, or losing it to another claimer, supersedes its token. */
  lemma LosingTheClaimSupersedes(st: Store, e: Event, id: WorkId, token: Token)
    requires Consistent(st) && Legal(st, e)
    requires id in st.records && st.records[id].claimId == Some(token) && e.op.Id() == id
    requires Accepts(st.records, e.op, e.at)
    requires e.op.Release? || e.op.Finish? || e.op.Claim?
    ensures Superseded(After(st, e), id, token)
  {
  }
}
