/**
 * What the ends of works rest on, in every run of the scan protocol: a work is completed only with
 * the result its publication answered, and its records keep the leases and the descriptor that a
 * later run of a worker needs.
 */
module ScanAnswers {
  import opened Basics
  import opened ScanWork
  import opened ScanWorker
  import opened ScanWorkStore
  import opened ScanProtocol
  import opened ScanInvariant
  import opened ScanGuarantees
  import opened ScanShape
  import opened ScanClaims
  import Jobs

  // ---- What a later run needs of a record ----

  const SCAN_LEASES := Leases(CLAIM_LEASE_MS, PUBLICATION_LEASE_MS)

  /** Leases are of the worker's lengths, and a work with an asset has the descriptor it was uploaded by. */
  predicate WellKept(w: Work) {
    LeasedSince(w, SCAN_LEASES) && (w.assetId.Some? ==> w.uploadDescriptor.Some?)
  }

  ghost predicate RecordsOk(s: Sys) {
    forall id :: id in s.st.records ==> WellKept(s.st.records[id])
  }

  lemma EffectRecords(s: Sys, actor: nat, e: Event)
    requires RecordsOk(s) && UsesLeases(e.op, SCAN_LEASES)
    requires e.op.RecordAsset? && Accepts(s.st.records, e.op, e.at) ==> s.st.records[e.op.id].uploadDescriptor.Some?
    ensures RecordsOk(Effect(s, actor, e))
  {
    if Accepts(s.st.records, e.op, e.at) {
      StepKeepsLeases(s.st.records[e.op.Id()], e.op, e.at, SCAN_LEASES);
      StepEvolves(s.st.records[e.op.Id()], e.op, e.at);
    }
  }

  lemma OwnCallRecords(s: Sys, n: nat, e: Event)
    requires GlobalOk(s) && RecordsOk(s) && OwnCall(s, n, e) && WorkerOk(s, n, s.workers[n])
    ensures RecordsOk(Effect(s, n, e))
  {
    EffectRecords(s, n, e);
  }

  // ---- What was answered ----

  ghost predicate Called(s: Sys, id: WorkId) {
    exists i :: 0 <= i < |s.publications| && s.publications[i].workId == id
  }

  predicate AnsweredWith(s: Sys, id: WorkId, ok: bool) {
    id in s.answers && s.answers[id].ok == ok
  }

  /** Only an unanswered publication is awaited, and a worker that ends the work heard its answer. */
  ghost predicate AnswerOk(s: Sys, n: nat, w: Worker) {
    && (w.pc.Calling? || w.pc.Awaiting? ==>
          w.workId in s.begun && s.begun[w.workId] == n && w.workId !in s.answers)
    && (w.pc.Awaiting? ==> Called(s, w.workId))
    && (w.pc.Completing? ==> AnsweredWith(s, w.workId, true) && s.answers[w.workId].result == w.pc.result)
    && (w.pc == Failing(PublishFailed) ==> AnsweredWith(s, w.workId, false))
  }

  /** The end of a work that tells of its publication is what the publication answered. */
  predicate OutcomeHeard(s: Sys, id: WorkId, o: Outcome) {
    && (o.status == Completed ==>
          AnsweredWith(s, id, true) && o.code == None && o.update == Some(JobCompleted(s.answers[id].result)))
    && (o.update == Some(JobFailed(PublishFailed)) ==> AnsweredWith(s, id, false))
  }

  ghost predicate HistoryOk(s: Sys) {
    && s.answers.Keys <= s.begun.Keys
    && (forall id :: id in s.answers ==> Called(s, id))
    && (forall id :: id in s.outcomes ==> OutcomeHeard(s, id, s.outcomes[id]))
  }

  ghost predicate AnswersOk(s: Sys) {
    HistoryOk(s) && forall n :: n in s.workers ==> AnswerOk(s, n, s.workers[n])
  }

  lemma MovedAnswers(t: Sys, n: nat, x: Worker)
    requires HistoryOk(t) && AnswerOk(t, n, x)
    requires forall m :: m in t.workers && m != n ==> AnswerOk(t, m, t.workers[m])
    ensures AnswersOk(Moved(t, n, x))
  {
    var u := Moved(t, n, x);
    assert forall id :: Called(t, id) ==> Called(u, id);
    forall m | m in u.workers
      ensures AnswerOk(u, m, u.workers[m])
    {
      assert AnswerOk(t, m, u.workers[m]);
    }
    forall id | id in u.outcomes
      ensures OutcomeHeard(u, id, u.outcomes[id])
    {
      assert OutcomeHeard(t, id, t.outcomes[id]);
    }
  }

  // ---- A store operation ----

  /** Whoever ends the work heard the answer that it ends it with. */
  predicate EndsAsHeard(s: Sys, e: Event) {
    e.op.Finish? ==>
      && (e.op.ending.Complete? ==>
            AnsweredWith(s, e.op.id, true) && s.answers[e.op.id].result == e.op.ending.result)
      && (e.op.ending == Fail(PublishFailed) ==> AnsweredWith(s, e.op.id, false))
  }

  lemma NewOutcome(s: Sys, e: Event, v: Work)
    requires EndsAsHeard(s, e) && NextWork(v, e.op, e.at).Some? && e.op.Id() == v.id && WellKept(v)
    requires !Terminal(v) && Terminal(NextWork(v, e.op, e.at).value)
    ensures OutcomeHeard(s, v.id, OutcomeOf(NextWork(v, e.op, e.at).value))
  {
  }

  lemma EffectHistory(s: Sys, actor: nat, e: Event)
    requires GlobalOk(s) && RecordsOk(s) && HistoryOk(s) && Legal(s.st, e) && EndsAsHeard(s, e)
    ensures HistoryOk(Effect(s, actor, e))
  {
    var t := Effect(s, actor, e);
    assert forall id :: Called(s, id) ==> Called(t, id);
    if Settles(s.st.records, e) {
      NewOutcome(s, e, s.st.records[e.op.Id()]);
    }
    forall id | id in t.outcomes
      ensures OutcomeHeard(t, id, t.outcomes[id])
    {
      assert id in s.outcomes && t.outcomes[id] == s.outcomes[id] ==> OutcomeHeard(s, id, s.outcomes[id]);
    }
  }

  /** Beginning to publish is for a work that nobody began to publish, let alone got an answer for. */
  lemma BeginsUnanswered(s: Sys, e: Event)
    requires GlobalOk(s) && HistoryOk(s) && e.op.BeginPublishing? && Accepts(s.st.records, e.op, e.at)
    ensures e.op.id !in s.begun && e.op.id !in s.answers
  {
    StepFacts(s.st.records[e.op.id], e.op, e.at);
  }

  lemma EffectKeepsAnswer(s: Sys, actor: nat, e: Event, m: nat, w: Worker)
    requires GlobalOk(s) && HistoryOk(s) && AnswerOk(s, m, w)
    ensures AnswerOk(Effect(s, actor, e), m, w)
  {
    var t := Effect(s, actor, e);
    if e.op.BeginPublishing? && Accepts(s.st.records, e.op, e.at) {
      BeginsUnanswered(s, e);
    }
    assert Called(s, w.workId) ==> Called(t, w.workId);
  }

  lemma EffectAnswers(s: Sys, actor: nat, e: Event)
    requires GlobalOk(s) && RecordsOk(s) && AnswersOk(s) && Legal(s.st, e) && EndsAsHeard(s, e)
    ensures AnswersOk(Effect(s, actor, e))
  {
    EffectHistory(s, actor, e);
    forall m | m in s.workers
      ensures AnswerOk(Effect(s, actor, e), m, s.workers[m])
    {
      EffectKeepsAnswer(s, actor, e, m, s.workers[m]);
    }
  }

  // ---- The worker that moves ----

  lemma OwnCallEndsAsHeard(s: Sys, n: nat, e: Event)
    requires OwnCall(s, n, e) && AnswerOk(s, n, s.workers[n])
    ensures EndsAsHeard(s, e)
  {
  }

  /** A worker between two answers of the store neither waits for a publication nor has heard of one. */
  predicate Elsewhere(pc: Pc) {
    !pc.Calling? && !pc.Awaiting? && !pc.Completing? && pc != Failing(PublishFailed)
  }

  lemma AnswerLeadsElsewhere(env: Env, w: Worker, r: Records, op: Op, at: Time)
    requires Asks(w, op)
    ensures var x := AfterAnswer(env, w, r, op, at);
            Elsewhere(x.pc) || (x.pc.Calling? && op.BeginPublishing? && Accepts(r, op, at) && op.id == x.workId)
  {
  }

  lemma ThrowLeadsElsewhere(w: Worker, error: Error)
    requires CallsOut(w.pc)
    ensures Elsewhere(AfterThrow(w, error).pc)
  {
  }

  lemma ElsewhereOk(t: Sys, n: nat, x: Worker)
    requires Elsewhere(x.pc)
    ensures AnswerOk(t, n, x)
  {
  }

  lemma CallAnswers(env: Env, s: Sys, n: nat, op: Op, at: Time, fate: Fate)
    requires GlobalOk(s) && RecordsOk(s) && AnswersOk(s) && OwnCall(s, n, Event(op, at)) && CallsOut(s.workers[n].pc)
    ensures AnswersOk(StoreCalled(env, s, n, op, at, fate))
  {
    var e, w := Event(op, at), s.workers[n];
    OwnCallEndsAsHeard(s, n, e);
    EffectAnswers(s, n, e);
    match fate
    case Answered =>
      var x := AfterAnswer(env, w, s.st.records, op, at);
      AnswerLeadsElsewhere(env, w, s.st.records, op, at);
      if x.pc.Calling? {
        BeginsUnanswered(s, e);
      } else {
        ElsewhereOk(Effect(s, n, e), n, x);
      }
      MovedAnswers(Effect(s, n, e), n, x);
    case ThrewAfter(error) =>
      ThrowLeadsElsewhere(w, error);
      MovedAnswers(Effect(s, n, e), n, AfterThrow(w, error));
    case ThrewBefore(error) =>
      ThrowLeadsElsewhere(w, error);
      MovedAnswers(s, n, AfterThrow(w, error));
  }

  /** The answer of the one publication of a work. */
  lemma PublicationHeard(s: Sys, n: nat, reply: Reply)
    requires AnswersOk(s) && n in s.workers && s.workers[n].pc.Awaiting? && reply.Published?
    ensures HistoryOk(Heard(s, n, reply))
    ensures forall m :: m in s.workers && m != n ==> AnswerOk(Heard(s, n, reply), m, s.workers[m])
  {
    var t := Heard(s, n, reply);
    assert forall id :: Called(s, id) ==> Called(t, id);
    assert AnswerOk(s, n, s.workers[n]);
    forall m | m in s.workers && m != n
      ensures AnswerOk(t, m, s.workers[m])
    {
      assert AnswerOk(s, m, s.workers[m]);
    }
    forall id | id in t.outcomes
      ensures OutcomeHeard(t, id, t.outcomes[id])
    {
      assert OutcomeHeard(s, id, s.outcomes[id]);
    }
  }

  lemma ReplyLeads(env: Env, w: Worker, reply: Reply)
    requires w.work.Some? && AfterReply(env, w, reply).Some?
    ensures var x := AfterReply(env, w, reply).value;
            && x.workId == w.workId && (reply.Published? ==> w.pc.Awaiting?)
            && (Elsewhere(x.pc) || (reply.Published? && x.pc == if reply.ok then Completing(reply.result)
                                                                else Failing(PublishFailed)))
  {
  }

  lemma ServiceAnswersOk(env: Env, s: Sys, n: nat, reply: Reply)
    requires AnswersOk(s) && Enabled(env, s, Service(n, reply))
    ensures AnswersOk(Next(env, s, Service(n, reply)))
  {
    var x := AfterReply(env, s.workers[n], reply).value;
    ReplyLeads(env, s.workers[n], reply);
    if reply.Published? {
      PublicationHeard(s, n, reply);
    }
    MovedAnswers(Heard(s, n, reply), n, x);
  }

  lemma PublishAnswersOk(env: Env, s: Sys, n: nat)
    requires AnswersOk(s) && Enabled(env, s, Publish(n))
    ensures AnswersOk(Next(env, s, Publish(n)))
  {
    var w := s.workers[n];
    var p := Publication(n, w.workId, w.pc.asset, w.pc.resource);
    var t := s.(publications := s.publications + [p]);
    assert t.publications[|s.publications|] == p;
    forall id | Called(s, id)
      ensures Called(t, id)
    {
      var i :| 0 <= i < |s.publications| && s.publications[i].workId == id;
      assert t.publications[i].workId == id;
    }
    forall m | m in t.workers
      ensures AnswerOk(t, m, t.workers[m])
    {
      assert AnswerOk(s, m, s.workers[m]);
    }
    forall id | id in t.outcomes
      ensures OutcomeHeard(t, id, t.outcomes[id])
    {
      assert OutcomeHeard(s, id, s.outcomes[id]);
    }
    MovedAnswers(t, n, w.(pc := Awaiting));
  }

  /** Time and the job store do not touch what was answered. */
  lemma LaterAnswers(s: Sys, t: Sys)
    requires AnswersOk(s) && t == s.(now := t.now, jobs := t.jobs, jobIds := t.jobIds, told := t.told)
    ensures AnswersOk(t)
  {
    assert forall id :: Called(s, id) ==> Called(t, id);
    forall m | m in t.workers
      ensures AnswerOk(t, m, t.workers[m])
    {
      assert AnswerOk(s, m, s.workers[m]);
    }
    forall id | id in t.outcomes
      ensures OutcomeHeard(t, id, t.outcomes[id])
    {
      assert OutcomeHeard(s, id, s.outcomes[id]);
    }
  }

  lemma TellAnswersOk(env: Env, s: Sys, n: nat, at: Time, fate: Fate)
    requires AnswersOk(s) && Enabled(env, s, TellJob(n, at, fate))
    ensures AnswersOk(Next(env, s, TellJob(n, at, fate)))
  {
    LaterAnswers(s, AfterTold(s, n, at));
    var x := Next(env, s, TellJob(n, at, fate)).workers[n];
    assert Elsewhere(x.pc);
    MovedAnswers(if fate.ThrewBefore? then s else AfterTold(s, n, at), n, x);
  }

  // ---- Every step, and every run ----

  ghost predicate HeardInv(s: Sys) {
    Inv(s) && RecordsOk(s) && AnswersOk(s)
  }

  lemma CallRecords(env: Env, s: Sys, n: nat, op: Op, at: Time, fate: Fate)
    requires GlobalOk(s) && RecordsOk(s) && OwnCall(s, n, Event(op, at)) && WorkerOk(s, n, s.workers[n])
    ensures RecordsOk(StoreCalled(env, s, n, op, at, fate))
    ensures StoreCalled(env, s, n, op, at, fate).answers == s.answers
  {
    OwnCallRecords(s, n, Event(op, at));
  }

  lemma CallKeepsHeard(env: Env, s: Sys, n: nat, op: Op, at: Time, fate: Fate)
    requires GlobalOk(s) && WorkersOk(s) && RecordsOk(s) && AnswersOk(s)
    requires n in s.workers && at <= s.now && Legal(s.st, Event(op, at)) && Asks(s.workers[n], op)
    ensures var t := StoreCalled(env, s, n, op, at, fate); RecordsOk(t) && AnswersOk(t) && t.answers == s.answers
  {
    assert CallsOut(s.workers[n].pc);
    assert WorkerOk(s, n, s.workers[n]);
    CallRecords(env, s, n, op, at, fate);
    CallAnswers(env, s, n, op, at, fate);
  }

  lemma OthersKeepHeard(s: Sys, e: Event)
    requires GlobalOk(s) && RecordsOk(s) && AnswersOk(s) && Legal(s.st, e)
    requires e.op.Create? || e.op.Forget? || e.op.MarkEnqueued? || e.op.Cancel?
    ensures RecordsOk(Effect(s, 0, e)) && AnswersOk(Effect(s, 0, e))
  {
    EffectRecords(s, 0, e);
    EffectAnswers(s, 0, e);
  }

  /** The steps that leave the records alone. */
  lemma QuietKeepsHeard(env: Env, s: Sys, step: Step)
    requires RecordsOk(s) && AnswersOk(s) && Enabled(env, s, step) && !step.Others? && !step.StoreCall?
    ensures RecordsOk(Next(env, s, step)) && AnswersOk(Next(env, s, step))
  {
    match step
    case Tick(later) => LaterAnswers(s, Next(env, s, step));
    case JobStep(op, at) => LaterAnswers(s, Next(env, s, step));
    case Deliver(n, id) => MovedAnswers(s, n, Worker(id, None, None, Claiming));
    case Service(n, reply) => ServiceAnswersOk(env, s, n, reply);
    case Publish(n) => PublishAnswersOk(env, s, n);
    case TellJob(n, at, fate) => TellAnswersOk(env, s, n, at, fate);
    case Crash(n) => MovedAnswers(s, n, s.workers[n].(pc := Crashed));
  }

  lemma StepKeepsBoth(env: Env, s: Sys, step: Step)
    requires GlobalOk(s) && WorkersOk(s) && RecordsOk(s) && AnswersOk(s) && Enabled(env, s, step)
    ensures RecordsOk(Next(env, s, step)) && AnswersOk(Next(env, s, step))
  {
    match step
    case Others(e) => OthersKeepHeard(s, e);
    case StoreCall(n, at, token, deadline, fate) =>
      CallKeepsHeard(env, s, n, Request(s.workers[n], token, deadline).value, at, fate);
    case _ => QuietKeepsHeard(env, s, step);
  }

  lemma StepKeepsHeard(env: Env, s: Sys, step: Step)
    requires HeardInv(s) && Enabled(env, s, step)
    ensures HeardInv(Next(env, s, step))
  {
    StepKeepsInv(env, s, step);
    StepKeepsBoth(env, s, step);
  }

  lemma {:induction false} RunKeepsHeard(env: Env, s: Sys, steps: seq<Step>)
    requires HeardInv(s) && ValidRun(env, s, steps)
    ensures HeardInv(End(env, s, steps))
    decreases |steps|
  {
    if steps != [] {
      StepKeepsHeard(env, s, steps[0]);
      RunKeepsHeard(env, Next(env, s, steps[0]), steps[1..]);
    }
  }

  /**
   * In every interleaving a work is completed only after its publication was called and answered ok,
   * and with the result of that answer, which is what its job is told; it fails as a failed
   * publication only if the answer was not ok.
   */
  lemma EndsAsPublished(env: Env, steps: seq<Step>, id: WorkId)
    requires ValidRun(env, Started(), steps) && id in End(env, Started(), steps).outcomes
    ensures var s := End(env, Started(), steps); var o := s.outcomes[id];
            && (o.status == Completed ==>
                  && id in s.answers && s.answers[id].ok
                  && (exists i :: 0 <= i < |s.publications| && s.publications[i].workId == id)
                  && o.code == None && o.update == Some(JobCompleted(s.answers[id].result)))
            && (o.update == Some(JobFailed(PublishFailed)) ==> id in s.answers && !s.answers[id].ok)
  {
    RunKeepsHeard(env, Started(), steps);
    var s := End(env, Started(), steps);
    assert OutcomeHeard(s, id, s.outcomes[id]);
    assert id in s.answers ==> Called(s, id);
  }

  ghost predicate SameAnswers(s: Sys, t: Sys) {
    forall id :: id in s.answers ==> id in t.answers && t.answers[id] == s.answers[id]
  }

  lemma HeardOnce(env: Env, s: Sys, n: nat, reply: Reply)
    requires AnswersOk(s) && Enabled(env, s, Service(n, reply))
    ensures SameAnswers(s, Next(env, s, Service(n, reply)))
  {
    ReplyLeads(env, s.workers[n], reply);
    assert AnswerOk(s, n, s.workers[n]);
  }

  lemma UnheardOf(env: Env, s: Sys, step: Step)
    requires Enabled(env, s, step) && !step.Service? && !step.StoreCall?
    ensures Next(env, s, step).answers == s.answers
  {
  }

  lemma StepRemembersAnswers(env: Env, s: Sys, step: Step)
    requires GlobalOk(s) && WorkersOk(s) && RecordsOk(s) && AnswersOk(s) && Enabled(env, s, step)
    ensures SameAnswers(s, Next(env, s, step))
  {
    match step
    case Service(n, reply) => HeardOnce(env, s, n, reply);
    case StoreCall(n, at, token, deadline, fate) =>
      CallKeepsHeard(env, s, n, Request(s.workers[n], token, deadline).value, at, fate);
    case _ => UnheardOf(env, s, step);
  }

  /** A publication is answered once: no later answer takes the place of one that was given. */
  lemma {:induction false} AnswersAreFinal(env: Env, s: Sys, steps: seq<Step>, id: WorkId)
    requires HeardInv(s) && ValidRun(env, s, steps) && id in s.answers
    ensures id in End(env, s, steps).answers && End(env, s, steps).answers[id] == s.answers[id]
    decreases |steps|
  {
    if steps != [] {
      StepKeepsHeard(env, s, steps[0]);
      StepRemembersAnswers(env, s, steps[0]);
      AnswersAreFinal(env, Next(env, s, steps[0]), steps[1..], id);
    }
  }
}
