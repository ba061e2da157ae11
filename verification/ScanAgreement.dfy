/**
 * The two stores of src/attachments/scan-work-store.ts over whole runs: they agree on every work
 * whose text fields are filled in, and on no other.
 */
module ScanAgreement {
  import opened Basics
  import opened ScanWork
  import opened ScanRedisStore
  import opened ScanShape
  import Jobs

  predicate Ordered(now: Time, es: seq<Event>)
    decreases |es|
  {
    es == [] || (now <= es[0].at && Ordered(es[0].at, es[1..]))
  }

  /** The store in memory through a run of any callers' operations. */
  function MemoryRun(s: Records, es: seq<Event>): Records
    decreases |es|
  {
    if es == [] then s else MemoryRun(Apply(s, es[0].op, es[0].at), es[1..])
  }

  /** The scripts through the same run: each acts on what is live when it runs, if it can read it. */
  function ScriptRun(s: Records, es: seq<Event>): Records
    decreases |es|
  {
    if es == [] then s
    else ScriptRun(LiveRecords(ScriptApply(LiveRecords(s, es[0].at), es[0].op, es[0].at), es[0].at), es[1..])
  }

  /** The live works that the scripts can read. */
  function ReadableRecords(s: Records, at: Time): Records {
    map id | id in s && s[id].expiresAt > at && SchemaValid(s[id]) :: s[id]
  }

  lemma ReadableLive(s: Records, at: Time)
    ensures ReadableRecords(LiveRecords(s, at), at) == ReadableRecords(s, at)
  {
  }

  lemma ReadableLater(s: Records, t: Records, at: Time, later: Time)
    requires at <= later && ReadableRecords(s, at) == ReadableRecords(t, at)
    ensures ReadableRecords(s, later) == ReadableRecords(t, later)
  {
    forall id
      ensures id in ReadableRecords(s, later) <==> id in ReadableRecords(t, later)
      ensures id in ReadableRecords(s, later) ==> ReadableRecords(s, later)[id] == ReadableRecords(t, later)[id]
    {
      assert id in ReadableRecords(s, later) ==> id in ReadableRecords(s, at);
      assert id in ReadableRecords(t, later) ==> id in ReadableRecords(t, at);
    }
  }

  // ---- One step ----

  lemma ReadableAfterPut(s: Records, id: WorkId, v: Work, at: Time)
    ensures ReadableRecords(s[id := v], at) ==
            if v.expiresAt > at && SchemaValid(v) then ReadableRecords(s, at)[id := v]
            else ReadableRecords(s, at) - {id}
  {
  }

  /** An operation changes the readable works as if there were no others. */
  lemma ApplyOnReadable(s: Records, op: Op, at: Time)
    ensures ReadableRecords(Apply(s, op, at), at) == ReadableRecords(Apply(ReadableRecords(s, at), op, at), at)
  {
    var readable := ReadableRecords(s, at);
    assert ReadableRecords(readable, at) == readable;
    if op.Create? {
      ReadableAfterPut(s, op.work.id, op.work, at);
      ReadableAfterPut(readable, op.work.id, op.work, at);
    } else if !op.Forget? && Accepts(s, op, at) {
      var v := NextWork(s[op.Id()], op, at).value;
      StepEvolves(s[op.Id()], op, at);
      StepKeepsSchema(s[op.Id()], op, at);
      ReadableAfterPut(s, op.Id(), v, at);
      ReadableAfterPut(readable, op.Id(), v, at);
    }
  }

  lemma StepAgrees(s: Records, t: Records, e: Event)
    requires ReadableRecords(s, e.at) == ReadableRecords(t, e.at)
    ensures ReadableRecords(Apply(s, e.op, e.at), e.at) ==
            ReadableRecords(LiveRecords(ScriptApply(LiveRecords(t, e.at), e.op, e.at), e.at), e.at)
  {
    var live := LiveRecords(t, e.at);
    ReadableLive(t, e.at);
    ReadableLive(ScriptApply(live, e.op, e.at), e.at);
    ApplyOnReadable(s, e.op, e.at);
    ApplyOnReadable(live, e.op, e.at);
    if Unread(live, e.op) {
      assert Apply(ReadableRecords(t, e.at), e.op, e.at) == ReadableRecords(t, e.at);
    }
  }

  lemma {:induction false} RunsAgree(s: Records, t: Records, now: Time, es: seq<Event>, next: Event)
    requires Ordered(now, es + [next]) && ReadableRecords(s, now) == ReadableRecords(t, now)
    ensures ReadableRecords(MemoryRun(s, es), next.at) == ReadableRecords(ScriptRun(t, es), next.at)
    decreases |es|
  {
    if es == [] {
      ReadableLater(s, t, now, next.at);
    } else {
      var e := es[0];
      assert (es + [next])[1..] == es[1..] + [next];
      ReadableLater(s, t, now, e.at);
      StepAgrees(s, t, e);
      RunsAgree(Apply(s, e.op, e.at), LiveRecords(ScriptApply(LiveRecords(t, e.at), e.op, e.at), e.at), e.at,
                es[1..], next);
    }
  }

  // ---- After any run ----

  /** A work that is there and unexpired, and fails the schema test. */
  predicate LiveUnreadable(s: Records, id: WorkId, at: Time) {
    id in s && s[id].expiresAt > at && !SchemaValid(s[id])
  }

  lemma OnReadableAlike(memory: Records, scripts: Records, op: Op, at: Time, token: Token, leaseMs: nat)
    requires ReadableRecords(memory, at) == ReadableRecords(scripts, at) && LiveRecords(scripts, at) == scripts
    requires !op.Create? && !op.ClearUpdate?
    ensures !LiveUnreadable(memory, op.id, at) ==> Accepts(memory, op, at) == ScriptAccepts(scripts, op, at)
    ensures Answer(memory, op.id, token, leaseMs, at) == ScriptAnswer(scripts, op.id, token, leaseMs, at) <==>
            !LiveUnreadable(memory, op.id, at)
  {
    if op.id in memory && memory[op.id].expiresAt <= at {
      ExpiredRefuses(memory[op.id], op, at);
    }
    assert op.id in ReadableRecords(memory, at) <==> op.id in ReadableRecords(scripts, at);
    assert op.id in scripts ==> op.id in LiveRecords(scripts, at);
    if op.id in ReadableRecords(memory, at) {
      assert memory[op.id] == ReadableRecords(scripts, at)[op.id] == scripts[op.id];
    }
  }

  /**
   * After any run of operations, on a clock that does not go back, the two stores hold the same
   * readable works and accept the same operation on them, and they answer a claim alike exactly
   * when the work is not one that is live and fails the schema test.
   */
  lemma StoresAgreeIffReadable(es: seq<Event>, next: Event, token: Token, leaseMs: nat)
    requires Ordered(0, es + [next]) && !next.op.Create? && !next.op.ClearUpdate?
    ensures var memory, scripts, id := MemoryRun(map[], es), LiveRecords(ScriptRun(map[], es), next.at), next.op.id;
            && ReadableRecords(memory, next.at) == ReadableRecords(scripts, next.at)
            && (!LiveUnreadable(memory, id, next.at) ==>
                  Accepts(memory, next.op, next.at) == ScriptAccepts(scripts, next.op, next.at))
            && (Answer(memory, id, token, leaseMs, next.at) == ScriptAnswer(scripts, id, token, leaseMs, next.at) <==>
                !LiveUnreadable(memory, id, next.at))
  {
    var scripts := ScriptRun(map[], es);
    RunsAgree(map[], map[], 0, es, next);
    ReadableLive(scripts, next.at);
    assert LiveRecords(LiveRecords(scripts, next.at), next.at) == LiveRecords(scripts, next.at);
    OnReadableAlike(MemoryRun(map[], es), LiveRecords(scripts, next.at), next.op, next.at, token, leaseMs);
  }

  predicate CreatesReadable(es: seq<Event>) {
    forall i :: 0 <= i < |es| && es[i].op.Create? ==> SchemaValid(es[i].op.work)
  }

  lemma StepStaysReadable(s: Records, e: Event)
    requires AllReadable(s) && (e.op.Create? ==> SchemaValid(e.op.work))
    ensures AllReadable(Apply(s, e.op, e.at))
  {
    if Accepts(s, e.op, e.at) {
      StepKeepsSchema(s[e.op.Id()], e.op, e.at);
    }
  }

  lemma {:induction false} RunsStayReadable(s: Records, t: Records, es: seq<Event>)
    requires AllReadable(s) && AllReadable(t) && CreatesReadable(es)
    ensures AllReadable(MemoryRun(s, es)) && AllReadable(ScriptRun(t, es))
    decreases |es|
  {
    if es != [] {
      var e := es[0];
      StepStaysReadable(s, e);
      StepStaysReadable(LiveRecords(t, e.at), e);
      assert CreatesReadable(es[1..]);
      RunsStayReadable(Apply(s, e.op, e.at), LiveRecords(ScriptApply(LiveRecords(t, e.at), e.op, e.at), e.at), es[1..]);
    }
  }

  /** With works created with their text fields filled in the two stores cannot be told apart. */
  lemma ReadableCreatesAgree(es: seq<Event>, next: Event, token: Token, leaseMs: nat)
    requires Ordered(0, es + [next]) && !next.op.Create? && !next.op.ClearUpdate? && CreatesReadable(es)
    ensures var memory, scripts, id := MemoryRun(map[], es), LiveRecords(ScriptRun(map[], es), next.at), next.op.id;
            && LiveRecords(memory, next.at) == scripts
            && Accepts(memory, next.op, next.at) == ScriptAccepts(scripts, next.op, next.at)
            && Answer(memory, id, token, leaseMs, next.at) == ScriptAnswer(scripts, id, token, leaseMs, next.at)
  {
    var memory, scripts := MemoryRun(map[], es), ScriptRun(map[], es);
    StoresAgreeIffReadable(es, next, token, leaseMs);
    RunsStayReadable(map[], map[], es);
    assert ReadableRecords(memory, next.at) == LiveRecords(memory, next.at);
    assert ReadableRecords(scripts, next.at) == LiveRecords(scripts, next.at);
    ReadableLive(scripts, next.at);
  }

  // ---- A work that only one store can process ----

  const Untitled: Work :=
    NewWork(1, 2, "m", Jobs.Scope("p", "s", Some("u")), Target("k", "church_image", "d", ""), 10, 0)

  lemma TwoSteps(s: Records, a: Event, b: Event, c: Event)
    requires a.at == b.at == c.at
    ensures MemoryRun(s, [a, b]) == Apply(Apply(s, a.op, a.at), b.op, b.at)
    ensures Ordered(a.at, [a, b] + [c])
  {
    var run, all := [a, b], [a, b] + [c];
    assert run[1..] == [b] && [b][1..] == [];
    assert all[1..] == [b, c] && [b, c][1..] == [c] && [c][1..] == [];
    var once := Apply(s, a.op, a.at);
    assert MemoryRun(once, [b]) == MemoryRun(Apply(once, b.op, b.at), [b][1..]);
    assert MemoryRun(Apply(once, b.op, b.at), []) == Apply(once, b.op, b.at);
    assert MemoryRun(s, run) == MemoryRun(once, [b]);
    assert Ordered(a.at, [c]) && Ordered(a.at, [b, c]);
  }

  /** Created, marked and claimed: one store grants the work without a title, for the other it is missing. */
  lemma UntitledIsClaimableOnlyInMemory()
    ensures var run, claim := [Event(Create(Untitled), 0), Event(MarkEnqueued(1), 0)], Claim(1, 7, CLAIM_LEASE_MS);
            && !IsBlank(Untitled.lineMessageId) && IsNew(Untitled) && !SchemaValid(Untitled)
            && Ordered(0, run + [Event(claim, 0)])
            && Answer(MemoryRun(map[], run), 1, 7, CLAIM_LEASE_MS, 0).Granted?
            && ScriptAnswer(LiveRecords(ScriptRun(map[], run), 0), 1, 7, CLAIM_LEASE_MS, 0) == Missing
  {
    var create, mark := Event(Create(Untitled), 0), Event(MarkEnqueued(1), 0);
    var claim := Event(Claim(1, 7, CLAIM_LEASE_MS), 0);
    assert !IsSpace(Untitled.lineMessageId[0]);
    TwoSteps(map[], create, mark, claim);
    UntitledQueued();
    StoresAgreeIffReadable([create, mark], claim, 7, CLAIM_LEASE_MS);
    UnreadableIsMissing([create, mark], claim);
  }

  lemma UntitledQueued()
    ensures var none: Records := map[];
            Apply(Apply(none, Create(Untitled), 0), MarkEnqueued(1), 0) == map[1 := Untitled.(status := Queued)]
  {
    var created: Records := map[1 := Untitled];
    assert NextWork(Untitled, MarkEnqueued(1), 0) == Some(Untitled.(status := Queued));
    assert Apply(created, MarkEnqueued(1), 0) == created[1 := Untitled.(status := Queued)];
  }

  lemma UnreadableIsMissing(es: seq<Event>, next: Event)
    requires Ordered(0, es + [next]) && next.op.Claim? && LiveUnreadable(MemoryRun(map[], es), next.op.id, next.at)
    ensures var scripts := LiveRecords(ScriptRun(map[], es), next.at);
            ScriptAnswer(scripts, next.op.id, next.op.token, next.op.leaseMs, next.at) == Missing
  {
    var scripts := LiveRecords(ScriptRun(map[], es), next.at);
    StoresAgreeIffReadable(es, next, next.op.token, next.op.leaseMs);
    assert next.op.id !in ReadableRecords(scripts, next.at);
  }
}
