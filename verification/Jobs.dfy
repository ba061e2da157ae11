/** The requester's background jobs: src/agent/jobs.ts. */
module Jobs {
  import opened Basics

  type JobId = nat

  datatype Scope = Scope(profileName: string, sourceKey: string, requesterUserId: Option<string>)

  datatype ExecResult = ExecResult(ok: bool, replyText: string)

  datatype JobStatus = Pending | Completed | Failed | Uncertain

  datatype Job = Job(
    id: JobId, scope: Scope, capability: Option<string>, jobLabel: string, status: JobStatus,
    result: Option<ExecResult>, error: Option<string>,
    executionStartedAt: Option<Time>, executionLeaseUntil: Option<Time>,
    createdAt: Time, expiresAt: Time)

  const EXECUTION_UNCERTAIN := "execution_uncertain"

  predicate Closed(status: JobStatus) {
    status == Completed || status == Failed
  }

  // ---- One record under one operation; None is a refusal ----

  function Started(j: Job, at: Time, leaseMs: nat): Option<Job> {
    if j.status != Pending || j.executionStartedAt.Some? || j.expiresAt <= at then None
    else Some(j.(executionStartedAt := Some(at), executionLeaseUntil := Some(at + leaseMs)))
  }

  function Renewed(j: Job, at: Time, leaseMs: nat): Option<Job> {
    if j.status != Pending || j.executionLeaseUntil.None? || j.executionLeaseUntil.value <= at then None
    else Some(j.(executionLeaseUntil := Some(at + leaseMs)))
  }

  function Finished(j: Job, at: Time, result: ExecResult, capability: Option<string>): Option<Job> {
    if Closed(j.status) || j.expiresAt <= at then None
    else Some(j.(status := Completed, result := Some(result),
                 capability := if capability.Some? then capability else j.capability))
  }

  function FailedWith(j: Job, error: string): Option<Job> {
    if j.status != Pending then None
    else Some(j.(status := if error == EXECUTION_UNCERTAIN then Uncertain else Failed, error := Some(error)))
  }

  /** What a reader sees: a pending job whose execution lease lapsed reads as uncertain. */
  function Projected(j: Job, at: Time): Job {
    if j.status == Pending && j.executionLeaseUntil.Some? && j.executionLeaseUntil.value <= at
    then j.(status := Uncertain, error := Some(EXECUTION_UNCERTAIN))
    else j
  }

  // ---- The store as a map, one operation at a time ----

  datatype JobOp =
    | Create(id: JobId, scope: Scope, capability: Option<string>, jobLabel: string, ttlMs: nat)
    | Start(id: JobId, leaseMs: nat)
    | Renew(id: JobId, leaseMs: nat)
    | Complete(id: JobId, result: ExecResult, capability: Option<string>)
    | Fail(id: JobId, error: string)
    | Get(id: JobId, scope: Scope)

  type JobMap = map<JobId, Job>

  function WithoutExpired(m: JobMap, at: Time): JobMap {
    map id | id in m && m[id].expiresAt > at :: m[id]
  }

  function NewJob(op: JobOp, at: Time): Job
    requires op.Create?
  {
    Job(op.id, op.scope, op.capability, op.jobLabel, Pending, None, None, None, None, at, at + op.ttlMs)
  }

  /** Whether the operation puts a brand-new record under its id. */
  predicate Inserts(m: JobMap, op: JobOp, at: Time) {
    op.Create? && (op.id !in m || m[op.id].expiresAt <= at)
  }

  function NextJob(j: Job, op: JobOp, at: Time): Option<Job> {
    match op
    case Start(_, leaseMs) => Started(j, at, leaseMs)
    case Renew(_, leaseMs) => Renewed(j, at, leaseMs)
    case Complete(_, result, capability) => Finished(j, at, result, capability)
    case Fail(_, error) => FailedWith(j, error)
    case _ => None
  }

  predicate Accepts(m: JobMap, op: JobOp, at: Time) {
    op.id in m && NextJob(m[op.id], op, at).Some?
  }

  function ApplyJob(m: JobMap, op: JobOp, at: Time): JobMap {
    match op
    case Create(id, _, _, _, _) =>
      var live := WithoutExpired(m, at);
      if id in live then live else live[id := NewJob(op, at)]
    case Get(id, scope) =>
      if id in m && m[id].scope == scope && m[id].expiresAt <= at then m - {id} else m
    case _ =>
      if Accepts(m, op, at) then m[op.id := NextJob(m[op.id], op, at).value] else m
  }

  /** The answer of get. */
  function View(m: JobMap, id: JobId, scope: Scope, at: Time): Option<Job> {
    if id !in m || m[id].scope != scope || m[id].expiresAt <= at then None
    else Some(Projected(m[id], at))
  }

  // ---- The store as the source has it ----

  datatype CreateResult = CreatedJob(job: Job) | ScopeConflict

  class InMemoryAgentJobStore {
    var jobs: JobMap

    constructor ()
      ensures jobs == map[]
    {
      jobs := map[];
    }

    method CreatePending(id: JobId, scope: Scope, capability: Option<string>, jobLabel: string, ttlMs: nat, at: Time)
      returns (r: CreateResult)
      modifies this
      ensures jobs == ApplyJob(old(jobs), Create(id, scope, capability, jobLabel, ttlMs), at)
      ensures r.CreatedJob? ==> id in jobs && r.job == jobs[id] && r.job.scope == scope
      ensures r.ScopeConflict? <==> id in old(jobs) && old(jobs)[id].expiresAt > at && old(jobs)[id].scope != scope
      ensures r.CreatedJob? ==>
                r.job == if id in old(jobs) && old(jobs)[id].expiresAt > at then old(jobs)[id]
                         else Job(id, scope, capability, jobLabel, Pending, None, None, None, None, at, at + ttlMs)
      ensures forall k :: k in jobs && k != id <==> k in old(jobs) && old(jobs)[k].expiresAt > at && k != id
      ensures forall k :: k in jobs && k != id ==> jobs[k] == old(jobs)[k]
    {
      var todo := jobs.Keys;
      ghost var before := jobs;
      while todo != {}
        invariant todo <= jobs.Keys <= before.Keys
        invariant forall k :: k in jobs ==> jobs[k] == before[k]
        invariant forall k :: k in before ==> (k in jobs <==> k in todo || before[k].expiresAt > at)
        decreases todo
      {
        var k :| k in todo;
        todo := todo - {k};
        if jobs[k].expiresAt <= at {
          jobs := jobs - {k};
        }
      }
      assert jobs == WithoutExpired(before, at);
      var record := Job(id, scope, capability, jobLabel, Pending, None, None, None, None, at, at + ttlMs);
      if id in jobs && jobs[id].expiresAt > at {
        if jobs[id].scope != scope {
          return ScopeConflict;
        }
        return CreatedJob(jobs[id]);
      }
      jobs := jobs[id := record];
      return CreatedJob(record);
    }

    method MarkStarted(id: JobId, leaseMs: nat, at: Time) returns (ok: bool)
      modifies this
      ensures jobs == ApplyJob(old(jobs), Start(id, leaseMs), at)
      ensures ok == Accepts(old(jobs), Start(id, leaseMs), at)
      ensures ok <==> id in old(jobs) && old(jobs)[id].status == Pending && old(jobs)[id].executionStartedAt == None &&
                      at < old(jobs)[id].expiresAt
      ensures !ok ==> jobs == old(jobs)
      ensures ok ==> jobs == old(jobs)[id := old(jobs)[id].(executionStartedAt := Some(at),
                                                            executionLeaseUntil := Some(at + leaseMs))]
    {
      if id !in jobs { return false; }
      var job := jobs[id];
      if job.status != Pending || job.executionStartedAt.Some? || job.expiresAt <= at { return false; }
      job := job.(executionStartedAt := Some(at));
      job := job.(executionLeaseUntil := Some(at + leaseMs));
      jobs := jobs[id := job];
      return true;
    }

    method RenewExecution(id: JobId, leaseMs: nat, at: Time) returns (ok: bool)
      modifies this
      ensures jobs == ApplyJob(old(jobs), Renew(id, leaseMs), at)
      ensures ok == Accepts(old(jobs), Renew(id, leaseMs), at)
      ensures ok <==> id in old(jobs) && old(jobs)[id].status == Pending &&
                      exists until :: old(jobs)[id].executionLeaseUntil == Some(until) && at < until
      ensures jobs == if ok then old(jobs)[id := old(jobs)[id].(executionLeaseUntil := Some(at + leaseMs))]
                      else old(jobs)
    {
      if id !in jobs { return false; }
      var job := jobs[id];
      if job.status != Pending || job.executionLeaseUntil.None? || job.executionLeaseUntil.value <= at {
        return false;
      }
      jobs := jobs[id := job.(executionLeaseUntil := Some(at + leaseMs))];
      return true;
    }

    method CompleteJob(id: JobId, result: ExecResult, capability: Option<string>, at: Time)
      modifies this
      ensures jobs == ApplyJob(old(jobs), Complete(id, result, capability), at)
      ensures forall k :: k in jobs && k != id <==> k in old(jobs) && k != id
      ensures forall k :: k in jobs && k != id ==> jobs[k] == old(jobs)[k]
      ensures id in jobs <==> id in old(jobs)
      ensures id in jobs ==>
                var was, now := old(jobs)[id], jobs[id];
                if was.status in {Pending, Uncertain} && at < was.expiresAt
                then now == was.(status := Completed, result := Some(result), capability := now.capability) &&
                     now.capability == match capability { case Some(given) => capability
                                                          case None => was.capability }
                else now == was
    {
      if id !in jobs { return; }
      var job := jobs[id];
      if job.status == Completed || job.status == Failed || job.expiresAt <= at { return; }
      jobs := jobs[id := job.(capability := if capability.Some? then capability else job.capability,
                              status := Completed, result := Some(result))];
    }

    method FailJob(id: JobId, error: string)
      modifies this
      ensures forall at: Time :: jobs == ApplyJob(old(jobs), Fail(id, error), at)
      ensures id !in old(jobs) || old(jobs)[id].status != Pending ==> jobs == old(jobs)
      ensures id in old(jobs) && old(jobs)[id].status == Pending ==>
                jobs == old(jobs)[id := old(jobs)[id].(
                  status := if error == "execution_uncertain" then Uncertain else Failed, error := Some(error))]
    {
      if id !in jobs || jobs[id].status != Pending { return; }
      jobs := jobs[id := jobs[id].(status := if error == EXECUTION_UNCERTAIN then Uncertain else Failed,
                                   error := Some(error))];
    }

    method GetJob(id: JobId, scope: Scope, at: Time) returns (r: Option<Job>)
      modifies this
      ensures jobs == ApplyJob(old(jobs), Get(id, scope), at)
      ensures r == View(old(jobs), id, scope, at)
      ensures r.Some? <==> id in old(jobs) && old(jobs)[id].scope == scope && at < old(jobs)[id].expiresAt
      ensures r.Some? ==>
                var was := old(jobs)[id];
                if was.status == Pending && exists until :: was.executionLeaseUntil == Some(until) && until <= at
                then r.value == was.(status := Uncertain, error := Some("execution_uncertain"))
                else r.value == was
    {
      if id !in jobs || jobs[id].scope != scope { return None; }
      var job := jobs[id];
      if job.expiresAt <= at {
        jobs := jobs - {id};
        return None;
      }
      return Some(Projected(job, at));
    }
  }

  // ---- Runs: the view only moves forward ----

  datatype JobEvent = JobEvent(op: JobOp, at: Time)

  function RunJobs(m: JobMap, es: seq<JobEvent>): JobMap
    decreases |es|
  {
    if es == [] then m else RunJobs(ApplyJob(m, es[0].op, es[0].at), es[1..])
  }

  /** Every event happens at or after the previous one, the first at or after now. */
  predicate Monotone(now: Time, es: seq<JobEvent>)
    decreases |es|
  {
    es == [] || (now <= es[0].at && Monotone(es[0].at, es[1..]))
  }

  function LastTime(now: Time, es: seq<JobEvent>): Time {
    if es == [] then now else es[|es| - 1].at
  }

  /** No event of the run starts a new record under id: the run is within one record lifetime. */
  predicate OneLifetime(m: JobMap, es: seq<JobEvent>, id: JobId)
    decreases |es|
  {
    es == [] ||
    (!(es[0].op.id == id && Inserts(m, es[0].op, es[0].at)) &&
     OneLifetime(ApplyJob(m, es[0].op, es[0].at), es[1..], id))
  }

  /** A lease exists only on a started record; every store reached from the empty one keeps this. */
  ghost predicate LeasesAreStarted(m: JobMap) {
    forall id :: id in m && m[id].executionLeaseUntil.Some? ==> m[id].executionStartedAt.Some?
  }

  lemma {:induction false} RunKeepsLeases(m: JobMap, es: seq<JobEvent>)
    requires LeasesAreStarted(m)
    ensures LeasesAreStarted(RunJobs(m, es))
    decreases |es|
  {
    if es != [] {
      RunKeepsLeases(ApplyJob(m, es[0].op, es[0].at), es[1..]);
    }
  }

  function Rank(status: JobStatus): nat {
    match status
    case Pending => 0
    case Uncertain => 1
    case Completed => 2
    case Failed => 2
  }

  /** j, seen at time s, may later be seen as k at time t. */
  ghost predicate Forward(j: Job, s: Time, k: Job, t: Time) {
    && (k.id, k.scope, k.createdAt, k.expiresAt) == (j.id, j.scope, j.createdAt, j.expiresAt)
    && Rank(Projected(j, s).status) <= Rank(Projected(k, t).status)
    && (j.status == Completed ==> k == j)
    && (j.status == Failed ==> k == j)
    && (j.status == Uncertain ==> k.status == Uncertain || k.status == Completed)
    && (j.executionStartedAt.Some? ==> k.executionStartedAt == j.executionStartedAt)
    && (Projected(j, s).status == Uncertain && k.status == Pending ==> k == j)
  }

  lemma ForwardTransitive(j: Job, s: Time, k: Job, t: Time, l: Job, u: Time)
    requires s <= t <= u && Forward(j, s, k, t) && Forward(k, t, l, u)
    ensures Forward(j, s, l, u)
  {
  }

  lemma StepForward(m: JobMap, op: JobOp, at: Time, now: Time, id: JobId)
    requires LeasesAreStarted(m) && now <= at && id in m && !(op.id == id && Inserts(m, op, at))
    requires id in ApplyJob(m, op, at)
    ensures Forward(m[id], now, ApplyJob(m, op, at)[id], at)
  {
  }

  lemma GoneStaysGone(m: JobMap, es: seq<JobEvent>, id: JobId)
    requires id !in m && OneLifetime(m, es, id)
    ensures id !in RunJobs(m, es)
    decreases |es|
  {
    if es != [] {
      GoneStaysGone(ApplyJob(m, es[0].op, es[0].at), es[1..], id);
    }
  }

  lemma {:induction false} RunForward(m: JobMap, now: Time, es: seq<JobEvent>, id: JobId)
    requires LeasesAreStarted(m) && Monotone(now, es)
    requires id in m && OneLifetime(m, es, id) && id in RunJobs(m, es)
    ensures now <= LastTime(now, es)
    ensures Forward(m[id], now, RunJobs(m, es)[id], LastTime(now, es))
    decreases |es|
  {
    if es != [] {
      var e := es[0];
      var m1 := ApplyJob(m, e.op, e.at);
      if id !in m1 {
        GoneStaysGone(m1, es[1..], id);
        assert false;
      }
      StepForward(m, e.op, e.at, now, id);
      RunForward(m1, e.at, es[1..], id);
      assert LastTime(now, es) == LastTime(e.at, es[1..]);
      ForwardTransitive(m[id], now, m1[id], e.at, RunJobs(m, es)[id], LastTime(now, es));
    }
  }

  /**
   * Two readings of one record lifetime, the second after any run of operations of any callers:
   * the status seen never goes back, a completed or failed reading never changes, and a lapsed
   * execution lease is never seen as running again.
   */
  lemma ViewMonotone(m: JobMap, now: Time, es: seq<JobEvent>, later: Time, id: JobId, scope: Scope)
    requires LeasesAreStarted(m) && Monotone(now, es) && LastTime(now, es) <= later && OneLifetime(m, es, id)
    requires View(m, id, scope, now).Some? && View(RunJobs(m, es), id, scope, later).Some?
    ensures var v := View(m, id, scope, now).value; var w := View(RunJobs(m, es), id, scope, later).value;
            && Rank(v.status) <= Rank(w.status)
            && (Closed(v.status) ==> w == v)
            && (v.status == Uncertain ==> w.status != Pending)
  {
    RunForward(m, now, es, id);
    var j, k := m[id], RunJobs(m, es)[id];
    assert Forward(k, LastTime(now, es), k, later);
    ForwardTransitive(j, now, k, LastTime(now, es), k, later);
  }

  /** Within one record lifetime markStarted succeeds at most once, whatever runs in between. */
  lemma StartsAtMostOnce(m: JobMap, now: Time, es: seq<JobEvent>, id: JobId, lease1: nat, lease2: nat, at: Time)
    requires LeasesAreStarted(m) && Accepts(m, Start(id, lease1), now)
    requires Monotone(now, es) && LastTime(now, es) <= at
    requires OneLifetime(ApplyJob(m, Start(id, lease1), now), es, id)
    ensures !Accepts(RunJobs(ApplyJob(m, Start(id, lease1), now), es), Start(id, lease2), at)
  {
    var m1 := ApplyJob(m, Start(id, lease1), now);
    if id in RunJobs(m1, es) {
      RunForward(m1, now, es, id);
    }
  }

  /** A renewal that arrives once the lease has lapsed is refused and leaves the store as it was. */
  lemma LapsedLeaseIsNotRenewed(m: JobMap, now: Time, es: seq<JobEvent>, id: JobId, leaseMs: nat, at: Time)
    requires LeasesAreStarted(m) && id in m && Projected(m[id], now).status == Uncertain
    requires Monotone(now, es) && LastTime(now, es) <= at && OneLifetime(m, es, id)
    ensures ApplyJob(RunJobs(m, es), Renew(id, leaseMs), at) == RunJobs(m, es)
  {
    if id in RunJobs(m, es) {
      RunForward(m, now, es, id);
    }
  }
}
