/**
 * The job scripts over Redis, src/agent/jobs.ts: each is one atomic step at the server's time, and
 * carries what its caller read from its own clock before.
 */
module JobsRedis {
  import opened Basics
  import opened Jobs

  /** A stored record and the instant its key dies. */
  datatype Entry = Entry(job: Job, deadline: Time)

  type Keys = map<JobId, Entry>

  predicate LiveKey(keys: Keys, id: JobId, at: Time) {
    id in keys && keys[id].deadline > at
  }

  /** PSETEX with the key's own remaining life. */
  function Put(keys: Keys, id: JobId, job: Job): Keys
    requires id in keys
  {
    keys[id := Entry(job, keys[id].deadline)]
  }

  // ---- The scripts as functions of the keys ----

  /** CREATE_JOB */
  function Created(keys: Keys, op: JobOp, stamp: Time, at: Time): Keys
    requires op.Create?
  {
    if LiveKey(keys, op.id, at) then keys else keys[op.id := Entry(NewJob(op, stamp), at + op.ttlMs)]
  }

  /** What EXECUTION_JOB makes of a record: unlike the store in memory it does not look at expiresAt. */
  function Executed(j: Job, start: bool, stamp: Time, leaseMs: nat): Option<Job> {
    if !start then Renewed(j, stamp, leaseMs)
    else if j.status != Pending || j.executionStartedAt.Some? then None
    else Some(j.(executionStartedAt := Some(stamp), executionLeaseUntil := Some(stamp + leaseMs)))
  }

  predicate Executes(keys: Keys, id: JobId, start: bool, stamp: Time, leaseMs: nat, at: Time) {
    LiveKey(keys, id, at) && Executed(keys[id].job, start, stamp, leaseMs).Some?
  }

  function AfterExecution(keys: Keys, id: JobId, start: bool, stamp: Time, leaseMs: nat, at: Time): Keys {
    if Executes(keys, id, start, stamp, leaseMs, at)
    then Put(keys, id, Executed(keys[id].job, start, stamp, leaseMs).value) else keys
  }

  /** FAIL_PENDING_JOB_SCRIPT */
  function AfterFailure(keys: Keys, id: JobId, error: string, at: Time): Keys {
    if LiveKey(keys, id, at) && FailedWith(keys[id].job, error).Some?
    then Put(keys, id, FailedWith(keys[id].job, error).value) else keys
  }

  /** The record COMPLETE_JOB writes: made of what the caller read, not of what is there. */
  function CompletedFrom(snapshot: Job, result: ExecResult, capability: Option<string>): Job {
    snapshot.(status := Completed, result := Some(result),
              capability := if capability.Some? then capability else snapshot.capability)
  }

  /** COMPLETE_JOB goes over any open record. */
  predicate Overwrites(keys: Keys, id: JobId, at: Time) {
    LiveKey(keys, id, at) && !Closed(keys[id].job.status)
  }

  function AfterCompletion(keys: Keys, snapshot: Job, result: ExecResult, capability: Option<string>, at: Time): Keys {
    if Overwrites(keys, snapshot.id, at)
    then Put(keys, snapshot.id, CompletedFrom(snapshot, result, capability)) else keys
  }

  /** The answer of get: the key is still there, and the record not expired on the reader's clock. */
  function Seen(keys: Keys, id: JobId, scope: Scope, at: Time): Option<Job> {
    if !LiveKey(keys, id, at) || keys[id].job.scope != scope || keys[id].job.expiresAt <= at then None
    else Some(Projected(keys[id].job, at))
  }

  // ---- The store as the source has it ----

  class RedisAgentJobStore {
    var keys: Keys

    constructor ()
      ensures keys == map[]
    {
      keys := map[];
    }

    method Save(id: JobId, job: Job, at: Time)
      requires LiveKey(keys, id, at)
      modifies this
      ensures keys == Put(old(keys), id, job)
    {
      var ttl := keys[id].deadline - at;
      keys := keys[id := Entry(job, at + ttl)];
    }

    method CreateScript(op: JobOp, stamp: Time, at: Time) returns (r: CreateResult)
      requires op.Create? && op.ttlMs > 0
      modifies this
      ensures keys == Created(old(keys), op, stamp, at) && op.id in keys
      ensures r.ScopeConflict? <==> keys[op.id].job.scope != op.scope
      ensures r.CreatedJob? ==> r.job == keys[op.id].job
      ensures op.id in old(keys) && at < old(keys)[op.id].deadline ==> keys == old(keys)
      ensures op.id !in old(keys) || old(keys)[op.id].deadline <= at ==>
                keys == old(keys)[op.id := Entry(Job(op.id, op.scope, op.capability, op.jobLabel, Pending, None, None,
                                                     None, None, stamp, stamp + op.ttlMs), at + op.ttlMs)]
    {
      if op.id !in keys || keys[op.id].deadline <= at {
        keys := keys[op.id := Entry(NewJob(op, stamp), at + op.ttlMs)];
      }
      var existing := keys[op.id].job;
      return if existing.scope != op.scope then ScopeConflict else CreatedJob(existing);
    }

    /** Start or renew, on the caller's stamp. */
    method ExecutionScript(id: JobId, start: bool, stamp: Time, leaseMs: nat, at: Time) returns (ok: bool)
      modifies this
      ensures ok == Executes(old(keys), id, start, stamp, leaseMs, at)
      ensures keys == AfterExecution(old(keys), id, start, stamp, leaseMs, at)
      ensures ok <==> && id in old(keys) && at < old(keys)[id].deadline && old(keys)[id].job.status == Pending
                      && if start then old(keys)[id].job.executionStartedAt == None
                         else exists until :: old(keys)[id].job.executionLeaseUntil == Some(until) && stamp < until
      ensures ok ==>
                var was := old(keys)[id];
                var started := if start then Some(stamp) else was.job.executionStartedAt;
                keys == old(keys)[id := Entry(was.job.(executionStartedAt := started,
                                                       executionLeaseUntil := Some(stamp + leaseMs)), was.deadline)]
      ensures !ok ==> keys == old(keys)
    {
      if id !in keys || keys[id].deadline <= at || keys[id].job.status != Pending { return false; }
      var job := keys[id].job;
      if start {
        if job.executionStartedAt.Some? { return false; }
        job := job.(executionStartedAt := Some(stamp));
      } else if job.executionLeaseUntil.None? || job.executionLeaseUntil.value <= stamp {
        return false;
      }
      Save(id, job.(executionLeaseUntil := Some(stamp + leaseMs)), at);
      return true;
    }

    method FailScript(id: JobId, error: string, at: Time) returns (ok: bool)
      modifies this
      ensures ok == (LiveKey(old(keys), id, at) && old(keys)[id].job.status == Pending)
      ensures keys == AfterFailure(old(keys), id, error, at)
      ensures ok ==>
                keys == old(keys)[id := Entry(old(keys)[id].job.(
                  status := if error == "execution_uncertain" then Uncertain else Failed, error := Some(error)),
                  old(keys)[id].deadline)]
      ensures !ok ==> keys == old(keys)
    {
      if id !in keys || keys[id].deadline <= at || keys[id].job.status != Pending { return false; }
      var job := keys[id].job;
      Save(id, job.(status := if error == EXECUTION_UNCERTAIN then Uncertain else Failed, error := Some(error)), at);
      return true;
    }

    /** The first half of complete; clock is read after the record. */
    method ReadOpen(id: JobId, at: Time, clock: Time) returns (r: Option<Job>)
      ensures r == if LiveKey(keys, id, at) && !Closed(keys[id].job.status) && keys[id].job.expiresAt > clock
                   then Some(keys[id].job) else None
    {
      if id !in keys || keys[id].deadline <= at { return None; }
      var record := keys[id].job;
      if record.status == Completed || record.status == Failed || record.expiresAt <= clock { return None; }
      return Some(record);
    }

    /** The second half: the record the caller made of its earlier reading goes over an open one. */
    method CompleteScript(snapshot: Job, result: ExecResult, capability: Option<string>, at: Time) returns (ok: bool)
      modifies this
      ensures ok == Overwrites(old(keys), snapshot.id, at)
      ensures keys == AfterCompletion(old(keys), snapshot, result, capability, at)
      ensures ok <==> && snapshot.id in old(keys) && at < old(keys)[snapshot.id].deadline
                      && old(keys)[snapshot.id].job.status in {Pending, Uncertain}
      ensures ok ==>
                && keys == old(keys)[snapshot.id := Entry(keys[snapshot.id].job, old(keys)[snapshot.id].deadline)]
                && var job := keys[snapshot.id].job;
                   && job == snapshot.(status := Completed, result := Some(result), capability := job.capability)
                   && job.capability == match capability { case Some(given) => capability
                                                           case None => snapshot.capability }
      ensures !ok ==> keys == old(keys)
    {
      var id := snapshot.id;
      if id !in keys || keys[id].deadline <= at || Closed(keys[id].job.status) { return false; }
      Save(id, CompletedFrom(snapshot, result, capability), at);
      return true;
    }

    method GetJob(id: JobId, scope: Scope, at: Time) returns (r: Option<Job>)
      ensures r == Seen(keys, id, scope, at)
      ensures r.Some? <==> && id in keys && at < keys[id].deadline && keys[id].job.scope == scope
                           && at < keys[id].job.expiresAt
      ensures r.Some? ==>
                var was := keys[id].job;
                if was.status == Pending && exists until :: was.executionLeaseUntil == Some(until) && until <= at
                then r.value == was.(status := Uncertain, error := Some("execution_uncertain"))
                else r.value == was
    {
      if id !in keys || keys[id].deadline <= at { return None; }
      var record := keys[id].job;
      if record.scope != scope || record.expiresAt <= at { return None; }
      return Some(Projected(record, at));
    }
  }
}
