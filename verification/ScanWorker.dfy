/**
 * One worker run of src/attachments/asset-worker.ts, cut at every await: a program counter with
 * the local variables that are live there, the store operation it is about to make, and where it
 * continues for each answer, error or thrown exception.
 */
module ScanWorker {
  import opened Basics
  import opened ScanWork
  import Jobs

  type Bytes = seq<bv8>

  datatype UploadStatus = UploadCreated | UploadCompleted | UploadFailed

  datatype ScanStatus = ScanPending | Scanning | Clean | Infected | ScanFailed

  datatype Asset = Asset(id: string, uploadStatus: UploadStatus, scanStatus: ScanStatus,
                         scanSignatureVersion: Option<string>, sizeBytes: Option<nat>,
                         checksumSha256: Option<string>, detectedMimeType: Option<string>)

  datatype Resource = Resource(data: Bytes, fileName: string, mimeType: string, sizeBytes: nat, sha256: string)

  datatype PrepareInput = PrepareInput(data: Bytes, declaredFileName: Option<string>,
                                       declaredContentType: Option<string>, profileName: string, target: Target)

  /** The worker's configuration and the binary checks it calls, which are not modelled further. */
  datatype Env = Env(profiles: set<string>,
                     prepare: PrepareInput -> Option<Resource>,
                     inferredFileName: (string, Option<string>) -> Option<string>,
                     sha256: Bytes -> string)
  {
    /** A prepared resource keeps the bytes it was given and reports their size and digest. */
    ghost predicate Faithful() {
      forall i: PrepareInput :: prepare(i).Some? ==>
        var r := prepare(i).value;
        r.data == i.data && r.sizeBytes == |i.data| && r.sha256 == sha256(i.data)
    }
  }

  const PUBLISHABLE_KINDS: set<string> :=
    {"ppt_slide", "pop_sheet", "hymn_sheet", "church_document", "church_image", "church_other"}

  predicate ValidWorkTarget(env: Env, w: Work) {
    !IsBlank(w.lineMessageId) && w.scope.profileName in env.profiles && w.target.itemKind in PUBLISHABLE_KINDS
  }

  function DescriptorOf(r: Resource): Descriptor {
    Descriptor(r.fileName, r.mimeType, r.sizeBytes, r.sha256)
  }

  predicate MatchesDescriptor(r: Resource, d: Descriptor) {
    r.fileName == d.fileName && r.mimeType == d.mimeType && r.sizeBytes == d.sizeBytes &&
    r.sha256 == d.checksumSha256
  }

  function BeforeSemicolon(s: string): string {
    if s == "" || s[0] == ';' then "" else [s[0]] + BeforeSemicolon(s[1..])
  }

  function TrimStart(s: string): string {
    if s != "" && IsSpace(s[0]) then TrimStart(s[1..]) else s
  }

  function TrimEnd(s: string): string {
    if s != "" && IsSpace(s[|s| - 1]) then TrimEnd(s[..|s| - 1]) else s
  }

  function NormalizedMime(mime: Option<string>): Option<string> {
    if mime.None? then None else Some(Lower(TrimEnd(TrimStart(BeforeSemicolon(mime.value)))))
  }

  lemma {:induction false} CutsAtSemicolon(s: string, parameters: string)
    requires ';' !in s
    ensures BeforeSemicolon(s + ";" + parameters) == s == BeforeSemicolon(s)
    decreases |s|
  {
    if s != "" {
      assert (s + ";" + parameters)[1..] == s[1..] + ";" + parameters;
      CutsAtSemicolon(s[1..], parameters);
      assert [s[0]] + s[1..] == s;
    }
  }

  /** Media types are compared without their parameters, the white space around them and their case. */
  lemma MediaTypesCompare(s: string, parameters: string)
    requires ';' !in s && s != "" && !IsSpace(s[0]) && !IsSpace(s[|s| - 1])
    ensures NormalizedMime(Some(s + ";" + parameters)) == NormalizedMime(Some(s)) == Some(Lower(s))
    ensures NormalizedMime(Some(" " + s)) == NormalizedMime(Some(s + " ")) == Some(Lower(s))
  {
    CutsAtSemicolon(s, parameters);
    CutsAtSemicolon(" " + s, "");
    CutsAtSemicolon(s + " ", "");
    assert (" " + s)[1..] == s && (s + " ")[..|s|] == s;
  }

  predicate MatchesAssetRecord(a: Asset, d: Descriptor) {
    && a.uploadStatus == UploadCompleted
    && a.sizeBytes == Some(d.sizeBytes)
    && a.checksumSha256.Some? && Lower(a.checksumSha256.value) == d.checksumSha256
    && NormalizedMime(a.detectedMimeType) == NormalizedMime(Some(d.mimeType))
  }

  /** Exceptions, by what the worker's handler makes of them. */
  datatype Error = PermanentAsset | LinePermanent | LineTransient | OtherError

  datatype Result =
    | WorkCompleted
    | PermanentFailure(code: FailureCode)
    | TransientRetry(code: FailureCode)
    | StillScanning
    | Contention
    | WorkMissing

  datatype Pc =
    | Claiming
    | FetchingAsset
    | Preparing
    | RecordingDescriptor(resource: Resource)
    | CreatingUpload(prepared: Option<Resource>)
    | PreparingAgain(asset: Asset)
    | Uploading(asset: Asset)
    | CompletingUpload(asset: Asset)
    | RecordingAsset(asset: Asset)
    | Waiting(asset: Asset)
    | Granting(asset: Asset)
    | Downloading(asset: Asset)
    | Beginning(asset: Asset, resource: Resource)
    | Calling(asset: Asset, resource: Resource)     // about to call publishVerifiedResource
    | Awaiting                                      // the publication call was made
    | Completing(result: Jobs.ExecResult)
    | Failing(code: FailureCode)
    | Releasing(report: Result)
    | Telling(jobId: Jobs.JobId, update: Update, done: Result, onError: Result)
    | Clearing(jobId: Jobs.JobId, done: Result, onError: Result)
    | Returned(report: Result)
    | Crashed

  /** work is the claimed record the worker was given; descriptor is its local variable. */
  datatype Worker = Worker(workId: WorkId, work: Option<Work>, descriptor: Option<Descriptor>, pc: Pc)

  /** What a service answers. */
  datatype Reply =
    | Threw(error: Error)
    | AssetReply(asset: Asset)
    | Content(data: Bytes, contentType: Option<string>)
    | Ticket(asset: Asset, hasTarget: bool)
    | Acknowledged
    | LoopExit
    | Published(ok: bool, result: Jobs.ExecResult)

  /** The handler around the worker's body before publishing began. */
  function Caught(error: Error): Pc {
    match error
    case PermanentAsset => Failing(ScanUnavailable)
    case LinePermanent => Failing(DownloadFailed)
    case LineTransient => Releasing(TransientRetry(DownloadFailed))
    case OtherError => Releasing(TransientRetry(ScanUnavailable))
  }

  /** The checks between the claim and the first service call. */
  function AfterClaim(env: Env, w: Work): Pc {
    if !ValidWorkTarget(env, w) then Failing(ValidationFailed)
    else if w.assetId.Some? then
      if w.uploadDescriptor.None? then Failing(ValidationFailed) else FetchingAsset
    else if w.uploadDescriptor.None? then Preparing
    else CreatingUpload(None)
  }

  function PreparedFrom(env: Env, w: Work, data: Bytes, contentType: Option<string>): Option<Resource> {
    env.prepare(PrepareInput(data, env.inferredFileName(w.target.title, contentType), contentType,
                             w.scope.profileName, w.target))
  }

  function VerifiedFrom(env: Env, w: Work, d: Descriptor, a: Asset, data: Bytes, contentType: Option<string>)
    : Option<Resource> {
    env.prepare(PrepareInput(data, Some(d.fileName),
                             if a.detectedMimeType.Some? then a.detectedMimeType else contentType,
                             w.scope.profileName, w.target))
  }

  /** From a checked upload ticket on. */
  function AfterTicket(a: Asset, hasTarget: bool, prepared: Option<Resource>, d: Descriptor): Pc {
    if a.uploadStatus != UploadCompleted then
      if a.uploadStatus != UploadCreated || !hasTarget then Failing(ValidationFailed)
      else if prepared.None? then PreparingAgain(a)
      else if MatchesDescriptor(prepared.value, d) then Uploading(a)
      else Failing(ValidationFailed)
    else if MatchesAssetRecord(a, d) then RecordingAsset(a)
    else Failing(ValidationFailed)
  }

  predicate IsScanning(a: Asset) {
    a.scanStatus == ScanPending || a.scanStatus == Scanning
  }

  /** The verdicts after waitForScan returns. */
  function AfterScan(a: Asset, d: Descriptor): Pc {
    if !MatchesAssetRecord(a, d) then Failing(ValidationFailed)
    else if IsScanning(a) then Releasing(StillScanning)
    else if a.scanStatus == Infected then Failing(ScanInfected)
    else if a.scanStatus != Clean || a.scanSignatureVersion.None? || a.scanSignatureVersion.value == ""
    then Failing(ScanUnavailable)
    else Granting(a)
  }

  /** Where the worker goes when an awaited service answers; None when that answer cannot come here. */
  function AfterReply(env: Env, w: Worker, reply: Reply): Option<Worker>
    requires w.work.Some?
  {
    if w.pc.Awaiting? then
      match reply
      case Threw(_) => Some(w.(pc := Returned(Contention)))
      case Published(ok, result) => Some(w.(pc := if ok then Completing(result) else Failing(PublishFailed)))
      case _ => None
    else if w.pc.Preparing? then
      match reply
      case Threw(e) => Some(w.(pc := Caught(e)))
      case Content(data, contentType) =>
        var r := PreparedFrom(env, w.work.value, data, contentType);
        if r.None? then Some(w.(pc := Failing(ValidationFailed)))
        else Some(w.(descriptor := Some(DescriptorOf(r.value)), pc := RecordingDescriptor(r.value)))
      case _ => None
    else if w.descriptor.None? then None
    else
      var pc := ServicePc(env, w.work.value, w.descriptor.value, w.pc, reply);
      if pc.None? then None else Some(w.(pc := pc.value))
  }

  /** The service calls that are made once a descriptor is known. */
  function ServicePc(env: Env, work: Work, d: Descriptor, pc: Pc, reply: Reply): Option<Pc> {
    match (pc, reply)
    case (FetchingAsset, AssetReply(a)) =>
      Some(if MatchesAssetRecord(a, d) then Waiting(a) else Failing(ValidationFailed))
    case (CreatingUpload(prepared), Ticket(a, hasTarget)) => Some(AfterTicket(a, hasTarget, prepared, d))
    case (PreparingAgain(a), Content(data, contentType)) =>
      var r := PreparedFrom(env, work, data, contentType);
      Some(if r.Some? && MatchesDescriptor(r.value, d) then Uploading(a) else Failing(ValidationFailed))
    case (Uploading(a), Acknowledged) => Some(CompletingUpload(a))
    case (CompletingUpload(_), AssetReply(a)) =>
      Some(if MatchesAssetRecord(a, d) then RecordingAsset(a) else Failing(ValidationFailed))
    case (Waiting(a), AssetReply(b)) => if IsScanning(a) then Some(Waiting(b)) else None
    case (Waiting(a), LoopExit) => Some(AfterScan(a, d))
    case (Granting(a), Acknowledged) => Some(Downloading(a))
    case (Downloading(a), Content(data, contentType)) =>
      var r := VerifiedFrom(env, work, d, a, data, contentType);
      Some(if r.Some? && MatchesDescriptor(r.value, d) then Beginning(a, r.value) else Failing(ValidationFailed))
    case (FetchingAsset, Threw(e)) => Some(Caught(e))
    case (CreatingUpload(_), Threw(e)) => Some(Caught(e))
    case (PreparingAgain(_), Threw(e)) => Some(Caught(e))
    case (Uploading(_), Threw(e)) => Some(Caught(e))
    case (CompletingUpload(_), Threw(e)) => Some(Caught(e))
    case (Waiting(_), Threw(e)) => Some(Caught(e))
    case (Granting(_), Threw(e)) => Some(Caught(e))
    case (Downloading(_), Threw(e)) => Some(Caught(e))
    case _ => None
  }

  /** The store operation the worker is about to make, if it is at one; token is used by a claim. */
  function Request(w: Worker, token: Token, deadline: Option<Time>): Option<Op> {
    match w.pc
    case Claiming => Some(Claim(w.workId, token, CLAIM_LEASE_MS))
    case Clearing(_, _, _) => Some(ClearUpdate(w.workId))
    case _ =>
      if w.work.None? || w.work.value.claimId.None? then None
      else
        var held := w.work.value.claimId.value;
        match w.pc
        case RecordingDescriptor(r) => Some(RecordDescriptor(w.workId, held, DescriptorOf(r)))
        case RecordingAsset(a) => Some(RecordAsset(w.workId, held, a.id))
        case Beginning(_, _) => Some(BeginPublishing(w.workId, held, PUBLICATION_LEASE_MS, deadline))
        case Completing(result) => Some(Finish(w.workId, held, Complete(result)))
        case Failing(code) => Some(Finish(w.workId, held, Fail(code)))
        case Releasing(_) => Some(Release(w.workId, held))
        case _ => None
  }

  /** The operation is one the worker may be about to make, for some token and deadline. */
  predicate Asks(w: Worker, op: Op) {
    Request(w, if op.Claim? then op.token else 0, if op.BeginPublishing? then op.deadline else None) == Some(op)
  }

  /** The result a worker reports for a work that is already terminal. */
  function SettledResult(status: Status, code: Option<FailureCode>): Result {
    if status == Completed then WorkCompleted
    else PermanentFailure(if code.Some? then code.value else WorkerFailed)
  }

  /** Report the pending update of a terminal record, or return at once when there is none. */
  function Reconcile(v: Work, done: Result, onError: Result): Pc {
    if v.pendingJobUpdate.Some? then Telling(v.jobId, v.pendingJobUpdate.value, done, onError) else Returned(done)
  }

  /** Where the worker goes when the store has done its operation, on these records, and answered. */
  function AfterAnswer(env: Env, w: Worker, before: Records, op: Op, at: Time): Worker
    requires Asks(w, op)
  {
    var accepted := Accepts(before, op, at);
    match w.pc
    case Claiming =>
      (match Answer(before, w.workId, op.token, op.leaseMs, at)
       case Missing => w.(pc := Returned(WorkMissing))
       case Active => w.(pc := Returned(Contention))
       case Settled(status, code) =>
         w.(pc := Reconcile(Apply(before, op, at)[w.workId], SettledResult(status, code), TransientRetry(WorkerFailed)))
       case Granted(work) =>
         Worker(w.workId, Some(work), work.uploadDescriptor, AfterClaim(env, work)))
    case Clearing(_, done, _) => w.(pc := Returned(done))
    case RecordingDescriptor(r) => w.(pc := if accepted then CreatingUpload(Some(r)) else Returned(Contention))
    case RecordingAsset(a) => w.(pc := if accepted then Waiting(a) else Returned(Contention))
    case Beginning(a, r) => w.(pc := if accepted then Calling(a, r) else Returned(Contention))
    case Completing(_) =>
      w.(pc := if accepted then Reconcile(Apply(before, op, at)[w.workId], WorkCompleted, Contention)
               else Returned(Contention))
    case Failing(code) =>
      w.(pc := if accepted
               then Reconcile(Apply(before, op, at)[w.workId], PermanentFailure(code), TransientRetry(WorkerFailed))
               else Returned(Contention))
    case Releasing(report) => w.(pc := Returned(if accepted then report else Contention))
    case _ => w
  }

  /** Where the worker goes when its call to the store throws, whether or not the store acted. */
  function AfterThrow(w: Worker, error: Error): Worker {
    match w.pc
    case Claiming => w.(pc := Returned(TransientRetry(WorkerFailed)))
    case Completing(_) => w.(pc := Returned(Contention))
    case Failing(_) => w.(pc := Returned(TransientRetry(WorkerFailed)))
    case Releasing(report) => w.(pc := Returned(report))
    case Telling(_, _, _, onError) => w.(pc := Returned(onError))
    case Clearing(_, _, onError) => w.(pc := Returned(onError))
    case _ => w.(pc := Caught(error))
  }

  /** Between a granted claim and the end of the run. */
  predicate InsideClaim(w: Worker) {
    w.work.Some? && !w.pc.Claiming? && !w.pc.Returned? && !w.pc.Crashed?
  }

  /** From here on the worker relies on the descriptor being the stored one. */
  predicate UsesDescriptor(pc: Pc) {
    pc.FetchingAsset? || pc.CreatingUpload? || pc.PreparingAgain? || pc.Uploading? || pc.CompletingUpload? ||
    pc.RecordingAsset? || pc.Waiting? || pc.Granting? || pc.Downloading? || pc.Beginning? || pc.Calling?
  }

  /** A scan verdict that lets a publication go ahead. */
  predicate CleanVerdict(a: Asset) {
    a.scanStatus == Clean && a.scanSignatureVersion.Some? && a.scanSignatureVersion.value != ""
  }
}
