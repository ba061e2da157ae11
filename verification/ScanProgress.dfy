/**
 * What one uninterrupted worker run comes to, src/attachments/asset-worker.ts: the first answer of a
 * service that is not a good one decides how the work, its job and the run end, and a run that gets
 * its answers does end.
 */
module ScanProgress {
  import opened Basics
  import opened ScanWork
  import opened ScanWorker
  import opened ScanWorkStore
  import opened ScanProtocol
  import opened ScanInvariant
  import opened ScanGuarantees
  import opened ScanShape
  import opened ScanClaims
  import opened ScanAnswers
  import Jobs

  /** How a run ends: published, failed for good, given back, or not known to anybody. */
  datatype Verdict = Publishes(result: Jobs.ExecResult) | Fails(code: FailureCode) | Retries(report: Result) | Contends

  /** What a stored asset decides: one that is not the uploaded file, or has no id to record. */
  function StoredDecides(d: Descriptor, a: Asset): Option<Verdict> {
    if !MatchesAssetRecord(a, d) then Some(Fails(ValidationFailed))
    else if IsBlank(a.id) then Some(Contends)
    else None
  }

  /** What content from LINE or from the asset service decides. */
  function ContentDecides(descriptor: Option<Descriptor>, r: Option<Resource>): Option<Verdict> {
    if r.None? then Some(Fails(ValidationFailed))
    else if descriptor.None? then if ValidDescriptor(DescriptorOf(r.value)) then None else Some(Contends)
    else if MatchesDescriptor(r.value, descriptor.value) then None
    else Some(Fails(ValidationFailed))
  }

  function ScanDecides(d: Descriptor, a: Asset): Option<Verdict> {
    if !MatchesAssetRecord(a, d) then Some(Fails(ValidationFailed))
    else match a.scanStatus
         case ScanPending => Some(Retries(StillScanning))
         case Scanning => Some(Retries(StillScanning))
         case Infected => Some(Fails(ScanInfected))
         case ScanFailed => Some(Fails(ScanUnavailable))
         case Clean =>
           if a.scanSignatureVersion.Some? && a.scanSignatureVersion.value != "" then None
           else Some(Fails(ScanUnavailable))
  }

  /** Only an exception of the publication itself leaves open what happened. */
  function ThrowDecides(publishing: bool, error: Error): Verdict {
    if publishing then Contends
    else match error
         case PermanentAsset => Fails(ScanUnavailable)
         case LinePermanent => Fails(DownloadFailed)
         case LineTransient => Retries(TransientRetry(DownloadFailed))
         case OtherError => Retries(TransientRetry(ScanUnavailable))
  }

  /** What an answer decides; None is a good one, with which the run goes on. */
  function Decides(env: Env, w: Worker, reply: Reply): Option<Verdict>
    requires w.work.Some? && (w.pc.Preparing? || w.pc.Awaiting? || w.descriptor.Some?)
  {
    match (w.pc, reply)
    case (_, Threw(error)) => Some(ThrowDecides(w.pc.Awaiting?, error))
    case (_, Published(ok, result)) => Some(if ok then Publishes(result) else Fails(PublishFailed))
    case (Downloading(a), Content(data, contentType)) =>
      ContentDecides(w.descriptor, VerifiedFrom(env, w.work.value, w.descriptor.value, a, data, contentType))
    case (_, Content(data, contentType)) =>
      ContentDecides(w.descriptor, PreparedFrom(env, w.work.value, data, contentType))
    case (CreatingUpload(_), Ticket(a, hasTarget)) =>
      if a.uploadStatus == UploadCreated && hasTarget then None else StoredDecides(w.descriptor.value, a)
    case (CompletingUpload(_), AssetReply(a)) => StoredDecides(w.descriptor.value, a)
    case (FetchingAsset, AssetReply(a)) =>
      if MatchesAssetRecord(a, w.descriptor.value) then None else Some(Fails(ValidationFailed))
    case (Waiting(a), LoopExit) => ScanDecides(w.descriptor.value, a)
    case _ => None
  }

  // ---- An uninterrupted run ----

  /**
   * A run of worker n for work id, from the state before its message was delivered, that is over
   * before the horizon: neither the work nor its job nor any lease taken on the way expires by then.
   */
  datatype Course = Course(n: nat, id: WorkId, token: Token, horizon: Time, before: Sys, verdict: Verdict)

  /** A work nobody holds: it is in the queue, or its claim is a whole lease old. */
  predicate Takeable(w: Work, at: Time) {
    w.status == Queued || (w.status == Claimed && w.claimedAt.Some? && w.claimedAt.value + CLAIM_LEASE_MS <= at)
  }

  /** A work of a known profile, with a message to fetch and a kind of item that is published. */
  predicate Publishable(env: Env, w: Work) {
    && !IsBlank(w.lineMessageId) && w.scope.profileName in env.profiles
    && w.target.itemKind in
       {"ppt_slide", "pop_sheet", "hymn_sheet", "church_document", "church_image", "church_other"}
  }

  predicate JobWaits(jobs: Jobs.JobMap, jobId: Jobs.JobId, horizon: Time) {
    jobId in jobs && jobs[jobId].status == Jobs.Pending && jobs[jobId].expiresAt >= horizon
  }

  /** The run can start: a live work that nobody holds, and a job that waits for it. */
  predicate Startable(env: Env, c: Course) {
    && c.n !in c.before.workers && c.token !in c.before.st.tokens
    && c.before.now < c.horizon <= c.before.now + PUBLICATION_LEASE_MS
    && c.id in c.before.st.records
    && var v := c.before.st.records[c.id];
       && Takeable(v, c.before.now) && v.expiresAt >= c.horizon
       && JobWaits(c.before.jobs, v.jobId, c.horizon)
       && (!Publishable(env, v) ==> c.verdict == Fails(ValidationFailed))
  }

  /** The answer is a good one, or decides as the run's verdict says. */
  predicate Decided(env: Env, c: Course, w: Worker, reply: Reply)
    requires w.work.Some? && (w.pc.Preparing? || w.pc.Awaiting? || w.descriptor.Some?)
  {
    Decides(env, w, reply).Some? ==> Decides(env, w, reply).value == c.verdict
  }

  /** A step of this run: time passes, a service answers, or the worker's own call is answered. */
  predicate OfCourse(env: Env, c: Course, s: Sys, step: Step) {
    match step
    case Tick(later) => later < c.horizon
    case Service(n, reply) =>
      && n == c.n && n in s.workers && s.workers[n].work.Some?
      && (s.workers[n].pc.Preparing? || s.workers[n].pc.Awaiting? || s.workers[n].descriptor.Some?)
      && Decided(env, c, s.workers[n], reply)
    case StoreCall(n, at, token, deadline, fate) =>
      n == c.n && at == s.now && token == c.token && fate.Answered? &&
      (deadline.Some? ==> deadline.value >= c.horizon)
    case Publish(n) => n == c.n
    case TellJob(n, at, fate) => n == c.n && at == s.now && fate.Answered?
    case _ => false
  }

  predicate CourseRun(env: Env, c: Course, s: Sys, steps: seq<Step>)
    decreases |steps|
  {
    steps == [] ||
    (Enabled(env, s, steps[0]) && OfCourse(env, c, s, steps[0]) &&
     CourseRun(env, c, Next(env, s, steps[0]), steps[1..]))
  }

  lemma {:induction false} CourseRunIsValid(env: Env, c: Course, s: Sys, steps: seq<Step>)
    requires CourseRun(env, c, s, steps)
    ensures ValidRun(env, s, steps)
    decreases |steps|
  {
    if steps != [] {
      CourseRunIsValid(env, c, Next(env, s, steps[0]), steps[1..]);
    }
  }

  // ---- Where a run stands ----

  predicate HeldUntil(v: Work, token: Token, horizon: Time) {
    && v.status == Claimed && v.claimId == Some(token) && v.failureCode.None?
    && v.claimExpiresAt.Some? && v.claimExpiresAt.value >= horizon && v.expiresAt >= horizon
  }

  predicate PublishedUntil(v: Work, token: Token, horizon: Time) {
    && v.status == Publishing && v.claimId == Some(token) && v.failureCode.None?
    && v.publishingExpiresAt.Some? && v.publishingExpiresAt.value >= horizon && v.expiresAt >= horizon
  }

  /** One more publication than before: this work's, by this worker, after a clean scan. */
  predicate OneMore(c: Course, publications: seq<Publication>) {
    && |publications| == |c.before.publications| + 1 && c.before.publications <= publications
    && var p := publications[|publications| - 1];
       p.workId == c.id && p.worker == c.n && CleanVerdict(p.asset)
  }

  /** The publications that go with a verdict. */
  predicate PublishedAsDecided(c: Course, publications: seq<Publication>) {
    if c.verdict.Publishes? || c.verdict == Fails(PublishFailed) then OneMore(c, publications)
    else publications == c.before.publications
  }

  predicate EndedAs(v: Work, verdict: Verdict) {
    match verdict
    case Publishes(_) => v.status == Completed && v.failureCode == None
    case Fails(code) => v.status == Failed && v.failureCode == Some(code)
    case _ => false
  }

  predicate JobShowsVerdict(jobs: Jobs.JobMap, jobId: Jobs.JobId, verdict: Verdict) {
    && jobId in jobs
    && match verdict
       case Publishes(result) => jobs[jobId].status == Jobs.Completed && jobs[jobId].result == Some(result)
       case Fails(code) => jobs[jobId].status == Jobs.Failed && jobs[jobId].error == Some(CodeText(code))
       case _ => jobs[jobId].status == Jobs.Pending
  }

  function VerdictUpdate(verdict: Verdict): Option<Update> {
    match verdict
    case Publishes(result) => Some(JobCompleted(result))
    case Fails(code) => Some(JobFailed(code))
    case _ => None
  }

  function VerdictReport(verdict: Verdict): Result {
    match verdict
    case Publishes(_) => WorkCompleted
    case Fails(code) => PermanentFailure(code)
    case Retries(report) => report
    case Contends => Contention
  }

  /** The run is over: what became of the work, of its job and of its publication, and what was reported. */
  predicate Concluded(c: Course, jobs: Jobs.JobMap, publications: seq<Publication>, v: Work, report: Result) {
    && JobShowsVerdict(jobs, v.jobId, c.verdict) && report == VerdictReport(c.verdict)
    && match c.verdict
       case Retries(_) => v.status == Queued && v.claimId == None && publications == c.before.publications
       case Contends =>
         && v.claimId == Some(c.token)
         && ((v.status == Claimed && publications == c.before.publications) ||
             (v.status == Publishing && OneMore(c, publications)))
       case _ => EndedAs(v, c.verdict) && v.pendingJobUpdate == None && PublishedAsDecided(c, publications)
  }

  /** The worker w and its record v while the asset is prepared, uploaded and scanned. */
  predicate Underway(c: Course, w: Worker, v: Work) {
    && w.work.Some? && w.work.value.claimId == Some(c.token) && HeldUntil(v, c.token, c.horizon)
    && match w.pc
       case Preparing => v.uploadDescriptor.None? && v.assetId.None? && w.descriptor.None?
       case RecordingDescriptor(r) =>
         && v.uploadDescriptor.None? && v.assetId.None? && w.descriptor == Some(DescriptorOf(r))
         && (ValidDescriptor(DescriptorOf(r)) || c.verdict == Contends)
       case CreatingUpload(prepared) =>
         && w.descriptor.Some? && v.assetId.None?
         && (prepared.Some? ==> DescriptorOf(prepared.value) == w.descriptor.value)
       case PreparingAgain(_) => w.descriptor.Some? && v.assetId.None?
       case Uploading(_) => w.descriptor.Some? && v.assetId.None?
       case CompletingUpload(_) => w.descriptor.Some? && v.assetId.None?
       case RecordingAsset(a) => w.descriptor.Some? && v.assetId.None? && (!IsBlank(a.id) || c.verdict == Contends)
       case FetchingAsset => w.descriptor.Some?
       case Waiting(_) => w.descriptor.Some?
       case Granting(a) => w.descriptor.Some? && CleanVerdict(a)
       case Downloading(a) => w.descriptor.Some? && CleanVerdict(a)
       case Beginning(a, _) => CleanVerdict(a)
       case Failing(code) => c.verdict == Fails(code) && code != PublishFailed
       case Releasing(report) => c.verdict == Retries(report)
       case _ => false
  }

  /** The worker and its record from the beginning of the publication on. */
  predicate Closing(c: Course, publications: seq<Publication>, jobs: Jobs.JobMap, w: Worker, v: Work) {
    match w.pc
    case Awaiting =>
      && w.work.Some? && w.work.value.claimId == Some(c.token) && PublishedUntil(v, c.token, c.horizon)
      && OneMore(c, publications)
    case Completing(result) =>
      && w.work.Some? && w.work.value.claimId == Some(c.token) && PublishedUntil(v, c.token, c.horizon)
      && c.verdict == Publishes(result) && OneMore(c, publications)
    case Failing(code) =>
      && w.work.Some? && w.work.value.claimId == Some(c.token) && PublishedUntil(v, c.token, c.horizon)
      && c.verdict == Fails(code) && code == PublishFailed && OneMore(c, publications)
    case Telling(jobId, update, done, _) =>
      && jobId == v.jobId && Some(update) == VerdictUpdate(c.verdict) && done == VerdictReport(c.verdict)
      && EndedAs(v, c.verdict) && PublishedAsDecided(c, publications)
    case Clearing(jobId, done, _) =>
      && EndedAs(v, c.verdict) && done == VerdictReport(c.verdict)
      && JobShowsVerdict(jobs, v.jobId, c.verdict) && PublishedAsDecided(c, publications)
    case Returned(report) => Concluded(c, jobs, publications, v, report)
    case _ => false
  }

  /** Where the run can stand, given its record, its job and the publications so far. */
  predicate Stands(env: Env, c: Course, publications: seq<Publication>, jobs: Jobs.JobMap, w: Worker, v: Work) {
    && w.workId == c.id
    && (!w.pc.Clearing? && !w.pc.Returned? ==> JobWaits(jobs, v.jobId, c.horizon))
    && match w.pc
       case Claiming => w.work.None? && publications == c.before.publications
       case Calling(a, _) =>
         && w.work.Some? && w.work.value.claimId == Some(c.token) && PublishedUntil(v, c.token, c.horizon)
         && CleanVerdict(a) && publications == c.before.publications
       case _ =>
         (Underway(c, w, v) && publications == c.before.publications) || Closing(c, publications, jobs, w, v)
  }

  // ---- A service answers ----

  lemma PublicationAnswers(env: Env, c: Course, publications: seq<Publication>, jobs: Jobs.JobMap, w: Worker, v: Work,
                           reply: Reply)
    requires Stands(env, c, publications, jobs, w, v) && w.pc.Awaiting?
    requires AfterReply(env, w, reply).Some? && Decided(env, c, w, reply)
    ensures Stands(env, c, publications, jobs, AfterReply(env, w, reply).value, v)
  {
  }

  lemma ContentAnswers(env: Env, c: Course, publications: seq<Publication>, jobs: Jobs.JobMap, w: Worker, v: Work,
                       reply: Reply)
    requires Stands(env, c, publications, jobs, w, v) && w.pc.Preparing?
    requires AfterReply(env, w, reply).Some? && Decided(env, c, w, reply)
    ensures Stands(env, c, publications, jobs, AfterReply(env, w, reply).value, v)
  {
  }

  lemma ServiceAnswers(env: Env, c: Course, w: Worker, v: Work, reply: Reply)
    requires Underway(c, w, v) && !w.pc.Preparing? && w.descriptor.Some?
    requires AfterReply(env, w, reply).Some? && Decided(env, c, w, reply)
    ensures Underway(c, AfterReply(env, w, reply).value, v)
  {
  }

  lemma ReplyStands(env: Env, c: Course, publications: seq<Publication>, jobs: Jobs.JobMap, w: Worker, v: Work,
                    reply: Reply)
    requires Stands(env, c, publications, jobs, w, v) && w.work.Some? && AfterReply(env, w, reply).Some?
    requires (w.pc.Preparing? || w.pc.Awaiting? || w.descriptor.Some?) && Decided(env, c, w, reply)
    ensures Stands(env, c, publications, jobs, AfterReply(env, w, reply).value, v)
    ensures !AfterReply(env, w, reply).value.pc.Claiming?
  {
    if w.pc.Awaiting? {
      PublicationAnswers(env, c, publications, jobs, w, v, reply);
    } else if w.pc.Preparing? {
      ContentAnswers(env, c, publications, jobs, w, v, reply);
    } else {
      ServiceAnswers(env, c, w, v, reply);
    }
  }

  // ---- The store answers ----

  /** A store call of the run, on the records it finds, and the record it leaves. */
  predicate Calls(c: Course, w: Worker, records: Records, op: Op, at: Time, v: Work) {
    && c.id in records && records[c.id] == v && c.before.now <= at < c.horizon
    && Asks(w, op) && op.Id() == c.id && v.expiresAt >= c.horizon
    && (op.BeginPublishing? && op.deadline.Some? ==> op.deadline.value >= c.horizon)
  }

  predicate ClaimsFresh(env: Env, c: Course, v: Work) {
    && Takeable(v, c.before.now) && WellKept(v)
    && c.before.now < c.horizon <= c.before.now + PUBLICATION_LEASE_MS
    && (!Publishable(env, v) ==> c.verdict == Fails(ValidationFailed))
  }

  lemma ClaimStands(env: Env, c: Course, publications: seq<Publication>, jobs: Jobs.JobMap, w: Worker, v: Work,
                    records: Records, op: Op, at: Time)
    requires Stands(env, c, publications, jobs, w, v) && Calls(c, w, records, op, at, v) && w.pc.Claiming?
    requires ClaimsFresh(env, c, v) && op.token == c.token
    ensures var next := Apply(records, op, at);
            c.id in next && Stands(env, c, publications, jobs, AfterAnswer(env, w, records, op, at), next[c.id])
  {
    ClaimIsNotStuck(records, c.id, c.token, at, SCAN_LEASES);
  }

  lemma RecordStands(env: Env, c: Course, w: Worker, v: Work, records: Records, op: Op, at: Time)
    requires Underway(c, w, v) && Calls(c, w, records, op, at, v)
    requires w.pc.RecordingDescriptor? || w.pc.RecordingAsset?
    ensures var next := Apply(records, op, at);
            c.id in next &&
            (if Accepts(records, op, at) then Underway(c, AfterAnswer(env, w, records, op, at), next[c.id])
                else c.verdict == Contends && next[c.id] == v &&
                     AfterAnswer(env, w, records, op, at) == w.(pc := Returned(Contention)))
  {
  }

  lemma BeginStands(env: Env, c: Course, w: Worker, v: Work, records: Records, op: Op, at: Time)
    requires Underway(c, w, v) && Calls(c, w, records, op, at, v) && w.pc.Beginning?
    requires c.horizon <= c.before.now + PUBLICATION_LEASE_MS
    ensures var next := Apply(records, op, at);
            && c.id in next && PublishedUntil(next[c.id], c.token, c.horizon)
            && AfterAnswer(env, w, records, op, at) == w.(pc := Calling(w.pc.asset, w.pc.resource))
  {
  }

  lemma EndStands(env: Env, c: Course, publications: seq<Publication>, jobs: Jobs.JobMap, w: Worker, v: Work,
                  records: Records, op: Op, at: Time)
    requires Stands(env, c, publications, jobs, w, v) && Calls(c, w, records, op, at, v)
    requires w.pc.Completing? || w.pc.Failing?
    ensures var next := Apply(records, op, at);
            && c.id in next && Closing(c, publications, jobs, AfterAnswer(env, w, records, op, at), next[c.id])
            && AfterAnswer(env, w, records, op, at).pc.Telling?
  {
  }

  lemma LeaveStands(env: Env, c: Course, publications: seq<Publication>, jobs: Jobs.JobMap, w: Worker, v: Work,
                    records: Records, op: Op, at: Time)
    requires Stands(env, c, publications, jobs, w, v) && Calls(c, w, records, op, at, v)
    requires w.pc.Releasing? || w.pc.Clearing?
    ensures var next := Apply(records, op, at);
            && c.id in next && Closing(c, publications, jobs, AfterAnswer(env, w, records, op, at), next[c.id])
  {
  }

  // ---- Every step of the run ----

  /** Claiming, failing and telling so. */
  predicate NeedsNoService(pc: Pc) {
    pc.Claiming? || pc.Failing? || pc.Telling? || pc.Clearing? || pc.Returned?
  }

  lemma CallNeedsNoService(env: Env, w: Worker, records: Records, op: Op, at: Time)
    requires Asks(w, op) && op.Id() in records && w.workId == op.Id() && NeedsNoService(w.pc)
    requires !Publishable(env, records[op.Id()])
    ensures NeedsNoService(AfterAnswer(env, w, records, op, at).pc)
  {
  }

  /** The run is on its way: only its own work, its own job and the publications can have changed. */
  ghost predicate OnCourse(env: Env, c: Course, s: Sys) {
    && c.id in c.before.st.records && c.id in s.st.records
    && var was, v := c.before.st.records[c.id], s.st.records[c.id];
       && c.before.now <= s.now < c.horizon <= c.before.now + PUBLICATION_LEASE_MS
       && s.st.records == c.before.st.records[c.id := v]
       && v.jobId == was.jobId && v.id == c.id && v.expiresAt >= c.horizon
       && was.jobId in s.jobs && s.jobs == c.before.jobs[was.jobId := s.jobs[was.jobId]]
       && c.n in s.workers && Stands(env, c, s.publications, s.jobs, s.workers[c.n], v)
       && (s.workers[c.n].pc.Claiming? ==> ClaimsFresh(env, c, v) && c.token !in s.st.tokens)
       && Publishable(env, v) == Publishable(env, was)
       && (Publishable(env, v) || NeedsNoService(s.workers[c.n].pc))
  }

  lemma CallIsCalls(env: Env, c: Course, s: Sys, op: Op, deadline: Option<Time>)
    requires OnCourse(env, c, s) && Request(s.workers[c.n], c.token, deadline) == Some(op)
    requires deadline.Some? ==> deadline.value >= c.horizon
    ensures var w := s.workers[c.n];
            && Calls(c, w, s.st.records, op, s.now, s.st.records[c.id]) && !op.Create? && !op.Forget?
            && (w.pc.Claiming? <==> op.Claim?) && (op.Claim? ==> op.token == c.token)
  {
  }

  lemma OneRecordChanges(records: Records, op: Op, at: Time, id: WorkId)
    requires id in records && op.Id() == id && !op.Create? && !op.Forget?
    ensures var next := Apply(records, op, at);
            && id in next && next == records[id := next[id]]
            && next[id].id == records[id].id && next[id].jobId == records[id].jobId
            && next[id].expiresAt == records[id].expiresAt
            && forall env :: Publishable(env, next[id]) == Publishable(env, records[id])
  {
    if Accepts(records, op, at) {
      StepEvolves(records[id], op, at);
    } else {
      assert records == records[id := records[id]];
    }
  }

  /** The answered call leaves the run where it can stand. */
  lemma CallStands(env: Env, c: Course, publications: seq<Publication>, jobs: Jobs.JobMap, w: Worker, v: Work,
                   records: Records, op: Op, at: Time)
    requires Stands(env, c, publications, jobs, w, v) && Calls(c, w, records, op, at, v)
    requires c.horizon <= c.before.now + PUBLICATION_LEASE_MS && v.jobId in jobs
    requires w.pc.Claiming? ==> ClaimsFresh(env, c, v) && op.token == c.token
    requires c.id in Apply(records, op, at) && Apply(records, op, at)[c.id].jobId == v.jobId
    ensures Stands(env, c, publications, jobs, AfterAnswer(env, w, records, op, at), Apply(records, op, at)[c.id])
    ensures !AfterAnswer(env, w, records, op, at).pc.Claiming?
  {
    if w.pc.Claiming? {
      ClaimStands(env, c, publications, jobs, w, v, records, op, at);
    } else if w.pc.RecordingDescriptor? || w.pc.RecordingAsset? {
      RecordStands(env, c, w, v, records, op, at);
    } else if w.pc.Beginning? {
      BeginStands(env, c, w, v, records, op, at);
    } else if w.pc.Completing? || w.pc.Failing? {
      EndStands(env, c, publications, jobs, w, v, records, op, at);
    } else {
      LeaveStands(env, c, publications, jobs, w, v, records, op, at);
    }
  }

  lemma CallOnCourse(env: Env, c: Course, s: Sys, op: Op, deadline: Option<Time>, t: Sys)
    requires OnCourse(env, c, s) && Request(s.workers[c.n], c.token, deadline) == Some(op)
    requires deadline.Some? ==> deadline.value >= c.horizon
    requires t == StoreCalled(env, s, c.n, op, s.now, Answered)
    ensures OnCourse(env, c, t)
  {
    var w, v := s.workers[c.n], s.st.records[c.id];
    CallIsCalls(env, c, s, op, deadline);
    OneRecordChanges(s.st.records, op, s.now, c.id);
    CallStands(env, c, s.publications, s.jobs, w, v, s.st.records, op, s.now);
    if !Publishable(env, v) {
      CallNeedsNoService(env, w, s.st.records, op, s.now);
    }
    assert t.st.records == c.before.st.records[c.id := t.st.records[c.id]];
  }

  lemma ServiceOnCourse(env: Env, c: Course, s: Sys, reply: Reply)
    requires OnCourse(env, c, s) && Enabled(env, s, Service(c.n, reply)) && OfCourse(env, c, s, Service(c.n, reply))
    ensures OnCourse(env, c, Next(env, s, Service(c.n, reply)))
    ensures !AfterReply(env, s.workers[c.n], reply).value.pc.Claiming?
  {
    ReplyStands(env, c, s.publications, s.jobs, s.workers[c.n], s.st.records[c.id], reply);
  }

  lemma PublishOnCourse(env: Env, c: Course, s: Sys)
    requires OnCourse(env, c, s) && Enabled(env, s, Publish(c.n))
    ensures OnCourse(env, c, Next(env, s, Publish(c.n)))
  {
  }

  lemma ToldStands(env: Env, c: Course, publications: seq<Publication>, jobs: Jobs.JobMap, w: Worker, v: Work, at: Time)
    requires Stands(env, c, publications, jobs, w, v) && w.pc.Telling? && at < c.horizon
    ensures var told := Jobs.ApplyJob(jobs, JobOpOf(w.pc.jobId, w.pc.update), at);
            && v.jobId in jobs && v.jobId in told && told == jobs[v.jobId := told[v.jobId]]
            && Stands(env, c, publications, told, w.(pc := Clearing(w.pc.jobId, w.pc.done, w.pc.onError)), v)
  {
    TellingShows(jobs, w.pc.jobId, w.pc.update, at);
  }

  lemma TellOnCourse(env: Env, c: Course, s: Sys)
    requires OnCourse(env, c, s) && Enabled(env, s, TellJob(c.n, s.now, Answered))
    ensures OnCourse(env, c, Next(env, s, TellJob(c.n, s.now, Answered)))
  {
    ToldStands(env, c, s.publications, s.jobs, s.workers[c.n], s.st.records[c.id], s.now);
  }

  lemma StepOnCourse(env: Env, c: Course, s: Sys, step: Step)
    requires OnCourse(env, c, s) && Enabled(env, s, step) && OfCourse(env, c, s, step)
    ensures OnCourse(env, c, Next(env, s, step))
  {
    match step
    case Tick(later) =>
    case Service(n, reply) => ServiceOnCourse(env, c, s, reply);
    case StoreCall(n, at, token, deadline, fate) =>
      CallOnCourse(env, c, s, Request(s.workers[n], token, deadline).value, deadline, Next(env, s, step));
    case Publish(n) => PublishOnCourse(env, c, s);
    case TellJob(n, at, fate) => TellOnCourse(env, c, s);
  }

  // ---- The run ends ----

  /** How many answers a run that has come this far can still get, polls of the scan aside. */
  function StepsLeft(pc: Pc): nat {
    match pc
    case Claiming => 17
    case Preparing => 16
    case RecordingDescriptor(_) => 15
    case CreatingUpload(_) => 14
    case PreparingAgain(_) => 13
    case Uploading(_) => 12
    case CompletingUpload(_) => 11
    case RecordingAsset(_) => 10
    case FetchingAsset => 10
    case Waiting(_) => 9
    case Granting(_) => 8
    case Downloading(_) => 7
    case Beginning(_, _) => 6
    case Calling(_, _) => 5
    case Awaiting => 4
    case Completing(_) => 3
    case Failing(_) => 3
    case Telling(_, _, _, _) => 2
    case Clearing(_, _, _) => 1
    case Releasing(_) => 1
    case _ => 0
  }

  /** Time passes, or the scan is polled. */
  predicate Idles(pc: Pc, step: Step) {
    step.Tick? || (pc.Waiting? && step.Service? && step.reply.AssetReply?)
  }

  lemma ReplyAdvances(env: Env, w: Worker, reply: Reply)
    requires w.work.Some? && AfterReply(env, w, reply).Some?
    ensures var pc := AfterReply(env, w, reply).value.pc;
            StepsLeft(pc) < StepsLeft(w.pc) || (w.pc.Waiting? && reply.AssetReply? && pc.Waiting?)
  {
  }

  lemma CallAdvances(env: Env, w: Worker, records: Records, op: Op, at: Time)
    requires Asks(w, op)
    ensures StepsLeft(AfterAnswer(env, w, records, op, at).pc) < StepsLeft(w.pc)
  {
  }

  lemma StepAdvances(env: Env, c: Course, s: Sys, step: Step)
    requires c.n in s.workers && Enabled(env, s, step) && OfCourse(env, c, s, step)
    ensures var t := Next(env, s, step);
            && c.n in t.workers
            && StepsLeft(t.workers[c.n].pc) <=
               StepsLeft(s.workers[c.n].pc) - if Idles(s.workers[c.n].pc, step) then 0 else 1
  {
    match step
    case Service(n, reply) => ReplyAdvances(env, s.workers[n], reply);
    case StoreCall(n, at, token, deadline, fate) =>
      CallAdvances(env, s.workers[n], s.st.records, Request(s.workers[n], token, deadline).value, at);
    case _ =>
  }

  function IdleSteps(env: Env, c: Course, s: Sys, steps: seq<Step>): nat
    requires CourseRun(env, c, s, steps) && c.n in s.workers
    decreases |steps|
  {
    if steps == [] then 0
    else
      StepAdvances(env, c, s, steps[0]);
      (if Idles(s.workers[c.n].pc, steps[0]) then 1 else 0) + IdleSteps(env, c, Next(env, s, steps[0]), steps[1..])
  }

  /** What can come from the service that is being waited for. */
  predicate Fits(pc: Pc, reply: Reply) {
    match pc
    case Preparing => reply.Content? || reply.Threw?
    case PreparingAgain(_) => reply.Content? || reply.Threw?
    case Downloading(_) => reply.Content? || reply.Threw?
    case CreatingUpload(_) => reply.Ticket? || reply.Threw?
    case FetchingAsset => reply.AssetReply? || reply.Threw?
    case CompletingUpload(_) => reply.AssetReply? || reply.Threw?
    case Uploading(_) => reply.Acknowledged? || reply.Threw?
    case Granting(_) => reply.Acknowledged? || reply.Threw?
    case Waiting(a) => (reply.AssetReply? && IsScanning(a)) || reply.LoopExit? || reply.Threw?
    case Awaiting => reply.Published? || reply.Threw?
    case _ => false
  }

  predicate WaitsForService(pc: Pc) {
    Fits(pc, Threw(OtherError))
  }

  /** The worker's own next call. */
  function OwnStep(c: Course, s: Sys): Step
    requires c.n in s.workers
  {
    if s.workers[c.n].pc.Calling? then Publish(c.n)
    else if s.workers[c.n].pc.Telling? then TellJob(c.n, s.now, Answered)
    else StoreCall(c.n, s.now, c.token, None, Answered)
  }

  lemma FittingReply(env: Env, c: Course, w: Worker, v: Work, publications: seq<Publication>, jobs: Jobs.JobMap,
                     reply: Reply)
    requires Stands(env, c, publications, jobs, w, v) && Fits(w.pc, reply)
    ensures w.work.Some? && AfterReply(env, w, reply).Some?
  {
  }

  lemma OwnStepEnabled(env: Env, c: Course, s: Sys)
    requires OnCourse(env, c, s)
    requires !s.workers[c.n].pc.Returned? && !WaitsForService(s.workers[c.n].pc)
    ensures Enabled(env, s, OwnStep(c, s)) && OfCourse(env, c, s, OwnStep(c, s))
  {
  }

  /** The run has returned, or takes any answer of the service it waits for, or makes its own next call. */
  ghost predicate GoesOn(env: Env, c: Course, s: Sys)
    requires c.n in s.workers
  {
    var pc := s.workers[c.n].pc;
    pc.Returned? || if WaitsForService(pc) then forall reply :: Fits(pc, reply) ==> Enabled(env, s, Service(c.n, reply))
                    else Enabled(env, s, OwnStep(c, s)) && OfCourse(env, c, s, OwnStep(c, s))
  }

  lemma NeverStuck(env: Env, c: Course, s: Sys)
    requires OnCourse(env, c, s)
    ensures GoesOn(env, c, s)
  {
    var w := s.workers[c.n];
    if WaitsForService(w.pc) {
      forall reply | Fits(w.pc, reply)
        ensures Enabled(env, s, Service(c.n, reply))
      {
        FittingReply(env, c, w, s.st.records[c.id], s.publications, s.jobs, reply);
      }
    } else if !w.pc.Returned? {
      OwnStepEnabled(env, c, s);
    }
  }

  lemma {:induction false} RunOnCourse(env: Env, c: Course, s: Sys, steps: seq<Step>)
    requires OnCourse(env, c, s) && CourseRun(env, c, s, steps)
    ensures ValidRun(env, s, steps) && OnCourse(env, c, End(env, s, steps))
    ensures |steps| + StepsLeft(End(env, s, steps).workers[c.n].pc) <=
            StepsLeft(s.workers[c.n].pc) + IdleSteps(env, c, s, steps)
    decreases |steps|
  {
    if steps != [] {
      StepOnCourse(env, c, s, steps[0]);
      StepAdvances(env, c, s, steps[0]);
      RunOnCourse(env, c, Next(env, s, steps[0]), steps[1..]);
    }
  }

  // ---- From every reachable state ----

  /** The message has been delivered. */
  function Delivered(env: Env, c: Course): Sys
    requires c.n !in c.before.workers
  {
    Next(env, c.before, Deliver(c.n, c.id))
  }

  lemma StartIsOnCourse(env: Env, c: Course)
    requires Inv(c.before) && RecordsOk(c.before) && Startable(env, c)
    ensures OnCourse(env, c, Delivered(env, c))
  {
    var v := c.before.st.records[c.id];
    assert WellKept(v) && v.id == c.id;
    assert c.before.st.records == c.before.st.records[c.id := v];
    assert c.before.jobs == c.before.jobs[v.jobId := c.before.jobs[v.jobId]];
  }

  ghost predicate Reachable(env: Env, s: Sys) {
    exists past :: ValidRun(env, ScanProtocol.Started(), past) && s == End(env, ScanProtocol.Started(), past)
  }

  lemma ReachableHolds(env: Env, s: Sys)
    requires Reachable(env, s)
    ensures Inv(s) && RecordsOk(s)
  {
    var past :| ValidRun(env, ScanProtocol.Started(), past) && s == End(env, ScanProtocol.Started(), past);
    RunKeepsHeard(env, ScanProtocol.Started(), past);
  }

  /** The run of this message, from its delivery in state s, has come to t. */
  ghost predicate ComesTo(env: Env, c: Course, s: Sys, steps: seq<Step>, t: Sys) {
    && Reachable(env, c.before) && Startable(env, c) && s == Delivered(env, c)
    && CourseRun(env, c, s, steps) && ValidRun(env, s, steps) && t == End(env, s, steps)
  }

  lemma DeliveredOnCourse(env: Env, c: Course, s: Sys)
    requires Reachable(env, c.before) && Startable(env, c) && s == Delivered(env, c)
    ensures OnCourse(env, c, s) && StepsLeft(s.workers[c.n].pc) == 17
  {
    ReachableHolds(env, c.before);
    StartIsOnCourse(env, c);
  }

  lemma ComesOnCourse(env: Env, c: Course, s: Sys, steps: seq<Step>, t: Sys)
    requires ComesTo(env, c, s, steps, t)
    ensures OnCourse(env, c, t)
    ensures c.n in s.workers && |steps| <= 17 + IdleSteps(env, c, s, steps)
  {
    DeliveredOnCourse(env, c, s);
    RunOnCourse(env, c, s, steps);
  }

  /** The run has returned, and everything is as its verdict says. */
  predicate EndsAsDecided(c: Course, t: Sys) {
    && c.id in c.before.st.records && c.id in t.st.records && c.n in t.workers && t.workers[c.n].pc.Returned?
    && t.st.records[c.id].jobId == c.before.st.records[c.id].jobId
    && Concluded(c, t.jobs, t.publications, t.st.records[c.id], t.workers[c.n].pc.report)
  }

  /**
   * From every reachable state, a message for a live work that nobody holds, whose job waits for it,
   * leads somewhere. Whatever the services answer, a run that is not interrupted and is over before
   * anything expires gets at most 17 answers, polls of the scan aside; until it returns it can always
   * go on; and when it returns, its work, its job, the publications and its report are as the verdict
   * says, and no other work and no other job has changed. A work that cannot be published is failed
   * before any service is asked.
   */
  lemma UninterruptedRunConcludes(env: Env, c: Course, s: Sys, steps: seq<Step>, t: Sys)
    requires ComesTo(env, c, s, steps, t)
    ensures c.n in s.workers && |steps| <= 17 + IdleSteps(env, c, s, steps)
    ensures c.n in t.workers && GoesOn(env, c, t) && (t.workers[c.n].pc.Returned? ==> EndsAsDecided(c, t))
    ensures !Publishable(env, c.before.st.records[c.id]) ==> NeedsNoService(t.workers[c.n].pc)
    ensures c.id in t.st.records && t.st.records == c.before.st.records[c.id := t.st.records[c.id]]
    ensures var jobId := c.before.st.records[c.id].jobId;
            jobId in t.jobs && t.jobs == c.before.jobs[jobId := t.jobs[jobId]]
  {
    ComesOnCourse(env, c, s, steps, t);
    NeverStuck(env, c, t);
  }

  lemma {:induction false} CourseStep(env: Env, c: Course, s: Sys, front: seq<Step>, step: Step, rest: seq<Step>)
    requires CourseRun(env, c, s, front + [step] + rest)
    ensures ValidRun(env, s, front) && OfCourse(env, c, End(env, s, front), step)
    decreases |front|
  {
    if front != [] {
      assert (front + [step] + rest)[1..] == front[1..] + [step] + rest;
      CourseStep(env, c, Next(env, s, front[0]), front[1..], step, rest);
    }
  }

  /** Exactly one publication of the work was added, and the work and its job ended as it answered. */
  predicate EndsAsAnswered(c: Course, t: Sys, ok: bool, result: Jobs.ExecResult) {
    && |t.publications| == |c.before.publications| + 1 && c.before.publications <= t.publications
    && t.publications[|t.publications| - 1].workId == c.id
    && c.id in t.st.records && t.st.records[c.id].jobId in t.jobs
    && var v, job := t.st.records[c.id], t.jobs[t.st.records[c.id].jobId];
       if ok then v.status == Completed && job.status == Jobs.Completed && job.result == Some(result)
       else v.status == Failed && v.failureCode == Some(PublishFailed) &&
            job.status == Jobs.Failed && job.error == Some("publish_failed")
  }

  lemma AnswerIsVerdict(env: Env, c: Course, s: Sys, front: seq<Step>, step: Step, rest: seq<Step>)
    requires CourseRun(env, c, s, front + [step] + rest) && step.Service? && step.reply.Published?
    ensures c.verdict == if step.reply.ok then Publishes(step.reply.result) else Fails(PublishFailed)
  {
    CourseStep(env, c, s, front, step, rest);
  }

  lemma AnsweredEnds(c: Course, t: Sys, ok: bool, result: Jobs.ExecResult)
    requires EndsAsDecided(c, t) && c.verdict == if ok then Publishes(result) else Fails(PublishFailed)
    ensures EndsAsAnswered(c, t, ok, result)
  {
  }

  /**
   * The publication decides: when it answered ok the work ends completed and its job completed with
   * the result that was answered, and when it did not both fail; either way the work was published
   * once more than before.
   */
  lemma PublicationDecides(env: Env, c: Course, s: Sys, front: seq<Step>, ok: bool, result: Jobs.ExecResult,
                           rest: seq<Step>, t: Sys)
    requires ComesTo(env, c, s, front + [Service(c.n, Published(ok, result))] + rest, t)
    requires c.n in t.workers && t.workers[c.n].pc.Returned?
    ensures EndsAsAnswered(c, t, ok, result)
  {
    AnswerIsVerdict(env, c, s, front, Service(c.n, Published(ok, result)), rest);
    UninterruptedRunConcludes(env, c, s, front + [Service(c.n, Published(ok, result))] + rest, t);
    AnsweredEnds(c, t, ok, result);
  }

  /** The worker n has waited for the scan of the file it uploaded, and the file is infected. */
  predicate SeesInfection(s: Sys, n: nat) {
    && n in s.workers && s.workers[n].pc.Waiting? && s.workers[n].descriptor.Some?
    && MatchesAssetRecord(s.workers[n].pc.asset, s.workers[n].descriptor.value)
    && s.workers[n].pc.asset.scanStatus == Infected
  }

  predicate EndsAsInfected(c: Course, t: Sys) {
    && t.publications == c.before.publications
    && c.id in t.st.records && t.st.records[c.id].jobId in t.jobs
    && t.st.records[c.id].status == Failed && t.st.records[c.id].failureCode == Some(ScanInfected)
    && t.jobs[t.st.records[c.id].jobId].status == Jobs.Failed
    && t.jobs[t.st.records[c.id].jobId].error == Some("scan_infected")
  }

  lemma InfectionIsVerdict(env: Env, c: Course, s: Sys, front: seq<Step>, step: Step, rest: seq<Step>)
    requires CourseRun(env, c, s, front + [step] + rest) && step == Service(c.n, LoopExit)
    requires ValidRun(env, s, front) && SeesInfection(End(env, s, front), c.n)
    ensures c.verdict == Fails(ScanInfected)
  {
    CourseStep(env, c, s, front, step, rest);
  }

  lemma InfectedEnds(c: Course, t: Sys)
    requires EndsAsDecided(c, t) && c.verdict == Fails(ScanInfected)
    ensures EndsAsInfected(c, t)
  {
  }

  /** An infected file ends the work as infected, its job is told so, and nothing is published. */
  lemma InfectedIsNotPublished(env: Env, c: Course, s: Sys, front: seq<Step>, rest: seq<Step>, t: Sys)
    requires ComesTo(env, c, s, front + [Service(c.n, LoopExit)] + rest, t)
    requires ValidRun(env, s, front) && SeesInfection(End(env, s, front), c.n)
    requires c.n in t.workers && t.workers[c.n].pc.Returned?
    ensures EndsAsInfected(c, t)
  {
    InfectionIsVerdict(env, c, s, front, Service(c.n, LoopExit), rest);
    UninterruptedRunConcludes(env, c, s, front + [Service(c.n, LoopExit)] + rest, t);
    InfectedEnds(c, t);
  }

  // ---- Runs that do not get that far ----

  /** What a run says of a live work that it was not granted: not now, or how it ended. */
  predicate SaysOf(v: Work, pc: Pc, now: Time) {
    && (v.status == PendingEnqueue ==> pc == Returned(Contention))
    && (v.status == Claimed && v.claimedAt.Some? && now < v.claimedAt.value + CLAIM_LEASE_MS ==>
          pc == Returned(Contention))
    && (v.status == Publishing && v.publishingExpiresAt.Some? && now < v.publishingExpiresAt.value ==>
          pc == Returned(Contention))
    && (v.status == Completed && v.pendingJobUpdate == None ==> pc == Returned(WorkCompleted))
    && (v.status == Failed && v.pendingJobUpdate == None && v.failureCode.Some? ==>
          pc == Returned(PermanentFailure(v.failureCode.value)))
  }

  lemma ClaimSays(env: Env, w: Worker, records: Records, op: Op, at: Time)
    requires w == Worker(op.Id(), None, None, Claiming) && op.Claim? && op.leaseMs == CLAIM_LEASE_MS
    requires op.id in records ==> WellKept(records[op.id])
    ensures var pc := AfterAnswer(env, w, records, op, at).pc;
            && (op.id !in records || records[op.id].expiresAt <= at ==> pc == Returned(WorkMissing))
            && (op.id in records && at < records[op.id].expiresAt ==> SaysOf(records[op.id], pc, at))
            && (pc == Returned(Contention) ==> Apply(records, op, at) == records)
  {
  }

  /** What a run makes of a claim that is not granted: there is nothing to do, or not now, or it was done. */
  lemma UnclaimedReturns(env: Env, s: Sys, n: nat, id: WorkId, token: Token, claim: Step)
    requires RecordsOk(s) && n in s.workers && s.workers[n] == Worker(id, None, None, Claiming)
    requires token !in s.st.tokens && claim == StoreCall(n, s.now, token, None, Answered)
    ensures Enabled(env, s, claim) && n in Next(env, s, claim).workers
    ensures var t := Next(env, s, claim); var pc := t.workers[n].pc;
            && (id !in s.st.records || s.st.records[id].expiresAt <= s.now ==> pc == Returned(WorkMissing))
            && (id in s.st.records && s.now < s.st.records[id].expiresAt ==> SaysOf(s.st.records[id], pc, s.now))
            && (pc == Returned(Contention) ==> t.st.records == s.st.records)
  {
    var op := Claim(id, token, CLAIM_LEASE_MS);
    assert Request(s.workers[n], token, None) == Some(op);
    ClaimSays(env, s.workers[n], s.st.records, op, s.now);
    assert Next(env, s, claim) == StoreCalled(env, s, n, op, s.now, Answered);
  }

  /** Where a call to the store that throws leaves the run, whether or not the store did what it was asked. */
  lemma ThrownCallLeads(env: Env, s: Sys, n: nat, at: Time, token: Token, deadline: Option<Time>, error: Error,
                        fate: Fate)
    requires fate == ThrewAfter(error) || fate == ThrewBefore(error)
    requires Enabled(env, s, StoreCall(n, at, token, deadline, fate))
    ensures var pc := Next(env, s, StoreCall(n, at, token, deadline, fate)).workers[n].pc;
            match s.workers[n].pc
            case Claiming => pc == Returned(TransientRetry(WorkerFailed))
            case Failing(_) => pc == Returned(TransientRetry(WorkerFailed))
            case Completing(_) => pc == Returned(Contention)
            case Releasing(report) => pc == Returned(report)
            case Clearing(_, _, onError) => pc == Returned(onError)
            case _ =>
              match ThrowDecides(false, error)
              case Fails(code) => pc == Failing(code)
              case Retries(report) => pc == Releasing(report)
              case _ => false
  {
  }

  // ---- Such runs start ----

  lemma {:induction false} RunStepOn(env: Env, s: Sys, steps: seq<Step>, step: Step)
    requires ValidRun(env, s, steps) && Enabled(env, End(env, s, steps), step)
    ensures ValidRun(env, s, steps + [step])
    ensures End(env, s, steps + [step]) == Next(env, End(env, s, steps), step)
    decreases |steps|
  {
    if steps == [] {
      assert [] + [step] == [step] && [step][1..] == [];
    } else {
      assert (steps + [step])[1..] == steps[1..] + [step];
      RunStepOn(env, Next(env, s, steps[0]), steps[1..], step);
    }
  }

  lemma ReachesOn(env: Env, s: Sys, step: Step)
    requires Reachable(env, s) && Enabled(env, s, step)
    ensures Reachable(env, Next(env, s, step))
  {
    var past :| ValidRun(env, ScanProtocol.Started(), past) && s == End(env, ScanProtocol.Started(), past);
    RunStepOn(env, ScanProtocol.Started(), past, step);
  }

  /** From any reachable state a new job, a work created for it and marked as queued make such a run possible. */
  lemma NewWorkCanRun(env: Env, s: Sys, w: Work, ttlMs: nat, n: nat, token: Token, verdict: Verdict) returns (q: Sys)
    requires Reachable(env, s) && IsNew(w) && w.id !in s.st.created && w.jobId !in s.jobIds && w.jobId !in s.jobs
    requires ttlMs > 0 && w.expiresAt > s.now && n !in s.workers && token !in s.st.tokens
    requires Publishable(env, w) || verdict == Fails(ValidationFailed)
    ensures Reachable(env, q) && Startable(env, Course(n, w.id, token, s.now + 1, q, verdict))
  {
    var create := JobStep(Jobs.Create(w.jobId, w.scope, None, "", ttlMs), s.now);
    ReachesOn(env, s, create);
    var a := Next(env, s, create);
    ReachesOn(env, a, Others(Event(Create(w), s.now)));
    var b := Next(env, a, Others(Event(Create(w), s.now)));
    ReachesOn(env, b, Others(Event(MarkEnqueued(w.id), s.now)));
    q := Next(env, b, Others(Event(MarkEnqueued(w.id), s.now)));
  }
}
