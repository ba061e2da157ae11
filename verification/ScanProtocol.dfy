/**
 * The distributed scan protocol: any number of worker runs for any works, redelivered messages,
 * dispatchers, requester jobs, a clock, expiring records, exceptions on either side of every store
 * call, and crashes. Workers move as ScanWorker says, records as ScanWork says.
 */
module ScanProtocol {
  import opened Basics
  import opened ScanWork
  import opened ScanWorker
  import opened ScanWorkStore
  import Jobs

  // ---- The system ----

  /** How a work ended, remembered even after its record expires. */
  datatype Outcome = Outcome(status: Status, code: Option<FailureCode>, update: Option<Update>)

  datatype Publication = Publication(worker: nat, workId: WorkId, asset: Asset, resource: Resource)

  datatype Report = Report(workId: WorkId, update: Update)

  /** What publishVerifiedResource answered: ok unless its status is failed. */
  datatype PublicationAnswer = PublicationAnswer(ok: bool, result: Jobs.ExecResult)

  /**
   * begun, descriptors, outcomes, publications, answers and told are histories: who began publishing
   * a work, which descriptor was persisted, how it ended, the publication calls, what they answered
   * and the job reports.
   */
  datatype Sys = Sys(
    now: Time, st: Store, jobs: Jobs.JobMap, jobIds: set<Jobs.JobId>, workers: map<nat, Worker>,
    begun: map<WorkId, nat>, descriptors: map<WorkId, Descriptor>, outcomes: map<WorkId, Outcome>,
    publications: seq<Publication>, answers: map<WorkId, PublicationAnswer>, told: seq<Report>)

  /** A remote call answers, or throws after or before the other side acted. */
  datatype Fate = Answered | ThrewAfter(error: Error) | ThrewBefore(error: Error)

  datatype Step =
    | Tick(later: Time)
    | Others(event: Event)                       // creates, marks, cancels and expiries
    | JobStep(op: Jobs.JobOp, at: Time)          // any other use of the job store
    | Deliver(worker: nat, id: WorkId)           // a (re)delivered message starts a run
    | Service(worker: nat, reply: Reply)
    | StoreCall(worker: nat, at: Time, token: Token, deadline: Option<Time>, fate: Fate)
    | Publish(worker: nat)                       // publishVerifiedResource is called
    | TellJob(worker: nat, at: Time, fate: Fate)
    | Crash(worker: nat)

  function Started(): Sys {
    Sys(0, Store(map[], {}, {}), map[], {}, map[], map[], map[], map[], [], map[], [])
  }

  /** Every stamp is a time already reached: a caller reads its clock before its call acts. */
  predicate Enabled(env: Env, s: Sys, step: Step) {
    match step
    case Tick(later) => s.now <= later
    case Others(e) =>
      && (e.op.Create? || e.op.Forget? || e.op.MarkEnqueued? || e.op.Cancel?)
      && e.at <= s.now && Legal(s.st, e) && (e.op.Create? ==> e.op.work.jobId in s.jobIds)
    case JobStep(op, at) => at <= s.now && (Jobs.Inserts(s.jobs, op, at) ==> op.id !in s.jobIds)
    case Deliver(n, id) => n !in s.workers
    case Service(n, reply) =>
      n in s.workers && s.workers[n].work.Some? && AfterReply(env, s.workers[n], reply).Some?
    case StoreCall(n, at, token, deadline, _) =>
      && n in s.workers && at <= s.now
      && Request(s.workers[n], token, deadline).Some?
      && Legal(s.st, Event(Request(s.workers[n], token, deadline).value, at))
    case Publish(n) => n in s.workers && s.workers[n].pc.Calling?
    case TellJob(n, at, _) => n in s.workers && s.workers[n].pc.Telling? && at <= s.now
    case Crash(n) => n in s.workers
  }

  function OutcomeOf(w: Work): Outcome {
    Outcome(w.status, w.failureCode, w.pendingJobUpdate)
  }

  predicate Settles(before: Records, e: Event) {
    Accepts(before, e.op, e.at) && !Terminal(before[e.op.Id()]) && Terminal(Apply(before, e.op, e.at)[e.op.Id()])
  }

  /** A store operation and what it adds to the histories. */
  function Effect(s: Sys, actor: nat, e: Event): Sys {
    var ok := Accepts(s.st.records, e.op, e.at);
    s.(st := After(s.st, e),
       begun := if e.op.BeginPublishing? && ok then s.begun[e.op.id := actor] else s.begun,
       descriptors := if e.op.RecordDescriptor? && ok then s.descriptors[e.op.id := e.op.descriptor]
                      else s.descriptors,
       outcomes := if Settles(s.st.records, e)
                   then s.outcomes[e.op.Id() := OutcomeOf(After(s.st, e).records[e.op.Id()])]
                   else s.outcomes)
  }

  function Moved(s: Sys, n: nat, w: Worker): Sys {
    s.(workers := s.workers[n := w])
  }

  /** The history of what publications answered, with this reply. */
  function Heard(s: Sys, n: nat, reply: Reply): Sys
    requires n in s.workers
  {
    if reply.Published?
    then s.(answers := s.answers[s.workers[n].workId := PublicationAnswer(reply.ok, reply.result)])
    else s
  }

  function AfterTold(s: Sys, n: nat, at: Time): Sys
    requires n in s.workers && s.workers[n].pc.Telling?
  {
    var pc := s.workers[n].pc;
    s.(jobs := Jobs.ApplyJob(s.jobs, JobOpOf(pc.jobId, pc.update), at),
       told := s.told + [Report(s.workers[n].workId, pc.update)])
  }

  /** A worker's store call, answered or thrown. */
  function StoreCalled(env: Env, s: Sys, n: nat, op: Op, at: Time, fate: Fate): Sys
    requires n in s.workers && Asks(s.workers[n], op)
  {
    var w := s.workers[n];
    match fate
    case Answered => Moved(Effect(s, n, Event(op, at)), n, AfterAnswer(env, w, s.st.records, op, at))
    case ThrewAfter(error) => Moved(Effect(s, n, Event(op, at)), n, AfterThrow(w, error))
    case ThrewBefore(error) => Moved(s, n, AfterThrow(w, error))
  }

  function Next(env: Env, s: Sys, step: Step): Sys
    requires Enabled(env, s, step)
  {
    match step
    case Tick(later) => s.(now := later)
    case Others(e) => Effect(s, 0, e)
    case JobStep(op, at) =>
      s.(jobs := Jobs.ApplyJob(s.jobs, op, at), jobIds := if op.Create? then s.jobIds + {op.id} else s.jobIds)
    case Deliver(n, id) => Moved(s, n, Worker(id, None, None, Claiming))
    case Service(n, reply) => Moved(Heard(s, n, reply), n, AfterReply(env, s.workers[n], reply).value)
    case StoreCall(n, at, token, deadline, fate) =>
      var op := Request(s.workers[n], token, deadline).value;
      StoreCalled(env, s, n, op, at, fate)
    case Publish(n) =>
      var w := s.workers[n];
      Moved(s.(publications := s.publications + [Publication(n, w.workId, w.pc.asset, w.pc.resource)]),
            n, w.(pc := Awaiting))
    case TellJob(n, at, fate) =>
      var w := s.workers[n];
      (match fate
       case Answered => Moved(AfterTold(s, n, at), n, w.(pc := Clearing(w.pc.jobId, w.pc.done, w.pc.onError)))
       case ThrewAfter(error) => Moved(AfterTold(s, n, at), n, AfterThrow(w, error))
       case ThrewBefore(error) => Moved(s, n, AfterThrow(w, error)))
    case Crash(n) => Moved(s, n, s.workers[n].(pc := Crashed))
  }
}
