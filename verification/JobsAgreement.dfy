/**
 * The two job stores of src/agent/jobs.ts side by side: with callers on the server's clock and
 * completions that are not interrupted they give every reader the same answer.
 */
module JobsAgreement {
  import opened Basics
  import opened Jobs
  import opened JobsRedis

  /** The records a script finds. */
  function Stored(keys: Keys, at: Time): JobMap {
    map id | id in keys && keys[id].deadline > at :: keys[id].job
  }

  /** A record under its own id, whose key dies when the record expires. */
  ghost predicate Synchronous(keys: Keys) {
    forall id :: id in keys ==> keys[id].job.id == id && keys[id].deadline == keys[id].job.expiresAt
  }

  /** One call of the store, stamped at the server's time. */
  function ScriptStep(keys: Keys, op: JobOp, at: Time): Keys {
    match op
    case Create(_, _, _, _, _) => Created(keys, op, at, at)
    case Start(id, leaseMs) => AfterExecution(keys, id, true, at, leaseMs, at)
    case Renew(id, leaseMs) => AfterExecution(keys, id, false, at, leaseMs, at)
    case Complete(id, result, capability) =>
      if LiveKey(keys, id, at) && Finished(keys[id].job, at, result, capability).Some?
      then AfterCompletion(keys, keys[id].job, result, capability, at) else keys
    case Fail(id, error) => AfterFailure(keys, id, error, at)
    case Get(_, _) => keys
  }

  predicate Timely(op: JobOp) {
    op.Create? ==> op.ttlMs > 0
  }

  /** In memory an operation changes the unexpired jobs as if there were no others. */
  lemma ApplyOnLive(m: JobMap, op: JobOp, at: Time)
    ensures WithoutExpired(ApplyJob(m, op, at), at) == WithoutExpired(ApplyJob(WithoutExpired(m, at), op, at), at)
  {
    var live := WithoutExpired(m, at);
    assert WithoutExpired(live, at) == live;
    if !op.Create? && !op.Get? && Accepts(m, op, at) {
      var k := NextJob(m[op.id], op, at).value;
      assert k.expiresAt == m[op.id].expiresAt;
      assert WithoutExpired(m[op.id := k], at) == if k.expiresAt > at then live[op.id := k] else live;
    }
  }

  lemma StoredPut(keys: Keys, id: JobId, job: Job, at: Time)
    requires Synchronous(keys) && LiveKey(keys, id, at) && job.id == id && job.expiresAt == keys[id].job.expiresAt
    ensures Synchronous(Put(keys, id, job)) && Stored(Put(keys, id, job), at) == Stored(keys, at)[id := job]
  {
  }

  /** A script changes a record as the store in memory changes the stored ones. */
  lemma UpdateIs(keys: Keys, op: JobOp, at: Time)
    requires Synchronous(keys) && !op.Create? && !op.Get?
    ensures Accepts(Stored(keys, at), op, at) ==>
              ScriptStep(keys, op, at) == Put(keys, op.id, NextJob(keys[op.id].job, op, at).value)
    ensures !Accepts(Stored(keys, at), op, at) ==> ScriptStep(keys, op, at) == keys
  {
    assert op.id in Stored(keys, at) <==> LiveKey(keys, op.id, at);
  }

  lemma StoredStep(keys: Keys, op: JobOp, at: Time)
    requires Synchronous(keys) && Timely(op)
    ensures Synchronous(ScriptStep(keys, op, at))
    ensures Stored(ScriptStep(keys, op, at), at) == WithoutExpired(ApplyJob(Stored(keys, at), op, at), at)
  {
    StoredIsLive(keys, at);
    if op.Create? {
      CreateStep(keys, op, at);
    } else if !op.Get? {
      UpdateIs(keys, op, at);
      if Accepts(Stored(keys, at), op, at) {
        StoredPut(keys, op.id, NextJob(keys[op.id].job, op, at).value, at);
      }
      StoredIsLive(ScriptStep(keys, op, at), at);
    }
  }

  lemma StoredIsLive(keys: Keys, at: Time)
    requires Synchronous(keys)
    ensures WithoutExpired(Stored(keys, at), at) == Stored(keys, at)
  {
  }

  lemma CreateStep(keys: Keys, op: JobOp, at: Time)
    requires Synchronous(keys) && op.Create? && op.ttlMs > 0
    ensures Synchronous(Created(keys, op, at, at))
    ensures Stored(Created(keys, op, at, at), at) == WithoutExpired(ApplyJob(Stored(keys, at), op, at), at)
  {
    StoredIsLive(keys, at);
    StoredIsLive(Created(keys, op, at, at), at);
  }

  lemma StepAgrees(keys: Keys, m: JobMap, op: JobOp, at: Time)
    requires Synchronous(keys) && Timely(op) && Stored(keys, at) == WithoutExpired(m, at)
    ensures Synchronous(ScriptStep(keys, op, at))
    ensures Stored(ScriptStep(keys, op, at), at) == WithoutExpired(ApplyJob(m, op, at), at)
  {
    StoredStep(keys, op, at);
    ApplyOnLive(m, op, at);
  }

  lemma LaterAgrees(keys: Keys, m: JobMap, at: Time, later: Time)
    requires Synchronous(keys) && at <= later && Stored(keys, at) == WithoutExpired(m, at)
    ensures Stored(keys, later) == WithoutExpired(m, later)
  {
    forall id
      ensures id in Stored(keys, later) <==> id in WithoutExpired(m, later)
      ensures id in Stored(keys, later) ==> Stored(keys, later)[id] == WithoutExpired(m, later)[id]
    {
      assert id in Stored(keys, later) ==> id in Stored(keys, at);
      assert id in WithoutExpired(m, later) ==> id in WithoutExpired(m, at);
    }
  }

  function ScriptRun(keys: Keys, es: seq<JobEvent>): Keys
    decreases |es|
  {
    if es == [] then keys else ScriptRun(ScriptStep(keys, es[0].op, es[0].at), es[1..])
  }

  lemma {:induction false} RunsAgree(keys: Keys, m: JobMap, now: Time, es: seq<JobEvent>, later: Time)
    requires Synchronous(keys) && Stored(keys, now) == WithoutExpired(m, now)
    requires Monotone(now, es) && LastTime(now, es) <= later && forall i :: 0 <= i < |es| ==> Timely(es[i].op)
    ensures Stored(ScriptRun(keys, es), later) == WithoutExpired(RunJobs(m, es), later)
    decreases |es|
  {
    if es == [] {
      LaterAgrees(keys, m, now, later);
    } else {
      var e := es[0];
      LaterAgrees(keys, m, now, e.at);
      StepAgrees(keys, m, e.op, e.at);
      assert LastTime(now, es) == LastTime(e.at, es[1..]);
      RunsAgree(ScriptStep(keys, e.op, e.at), ApplyJob(m, e.op, e.at), e.at, es[1..], later);
    }
  }

  /** After any such run both stores give every reader the same answer. */
  lemma ReadersAgree(es: seq<JobEvent>, later: Time, id: JobId, scope: Scope)
    requires Monotone(0, es) && LastTime(0, es) <= later && forall i :: 0 <= i < |es| ==> Timely(es[i].op)
    ensures Seen(ScriptRun(map[], es), id, scope, later) == View(RunJobs(map[], es), id, scope, later)
  {
    var keys, m := ScriptRun(map[], es), RunJobs(map[], es);
    RunsAgree(map[], map[], 0, es, later);
    assert LiveKey(keys, id, later) <==> id in Stored(keys, later);
    assert id in Stored(keys, later) ==> keys[id].job == WithoutExpired(m, later)[id];
  }
}
