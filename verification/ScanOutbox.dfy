/**
 * The outbox between creating a scan work and queueing it: src/attachments/scan-outbox.ts and the
 * pending index of src/attachments/scan-work-store.ts.
 */
module ScanOutbox {
  import opened Basics
  import opened ScanWork
  import opened ScanWorkStore
  import opened ScanRedisStore
  import opened ScanShape
  import Jobs

  // ---- The dispatcher loops, uninterrupted, over the in-memory store ----

  /** failures counts the sends that did not succeed. */
  class AttachmentScanQueue {
    var sent: seq<WorkId>
    ghost var failures: nat

    constructor ()
      ensures sent == [] && failures == 0
    {
      sent, failures := [], 0;
    }

    /** A send that may fail before or after the message is taken. */
    method Enqueue(id: WorkId) returns (ok: bool)
      modifies this
      ensures sent == old(sent) || sent == old(sent) + [id]
      ensures ok ==> sent == old(sent) + [id]
      ensures failures == old(failures) + if ok then 0 else 1
    {
      var taken: bool := *;
      if taken {
        sent := sent + [id];
      }
      ok := *;
      ok := ok && taken;
      if !ok {
        failures := failures + 1;
      }
    }
  }

  datatype DispatchResult = DispatchQueued | RetryScheduled | Thrown

  /** Send first, mark second; only a sent work is marked. */
  method SendThenMark(id: WorkId, store: InMemoryAttachmentScanWorkStore, queue: AttachmentScanQueue, at: Time)
    returns (marked: bool)
    modifies store, queue
    ensures old(queue.sent) <= queue.sent && (marked ==> id in queue.sent)
    ensures old(queue.failures) <= queue.failures
    ensures marked <==> queue.failures == old(queue.failures) && id in old(store.values) &&
                        old(store.values)[id].status == PendingEnqueue && at < old(store.values)[id].expiresAt
    ensures marked ==> id in old(store.values) && old(store.values)[id].status == PendingEnqueue &&
                       store.values == old(store.values)[id := old(store.values)[id].(status := Queued)]
    ensures !marked ==> store.values == old(store.values) || store.values == Dropped(old(store.values), id, at)
  {
    var sent := queue.Enqueue(id);
    if !sent { return false; }
    marked := store.MarkEnqueuedWork(id, at);
  }

  /** durable is the store's supportsDurableEnqueueRetry: a failure is then left to a later flush. */
  method DispatchAttachmentScanWork(id: WorkId, store: InMemoryAttachmentScanWorkStore, queue: AttachmentScanQueue,
                                    durable: bool, at: Time) returns (r: DispatchResult)
    modifies store, queue
    ensures r == DispatchQueued <==> queue.failures == old(queue.failures) && id in old(store.values) &&
                                     old(store.values)[id].status == PendingEnqueue &&
                                     at < old(store.values)[id].expiresAt
    ensures r == DispatchQueued ==> id in queue.sent
    ensures r == DispatchQueued ==>
              store.values == old(store.values)[id := old(store.values)[id].(status := Queued)] != old(store.values)
    ensures r != DispatchQueued ==>
              store.values == old(store.values) || store.values == Dropped(old(store.values), id, at)
    ensures r != DispatchQueued ==> r == if durable then RetryScheduled else Thrown
  {
    var marked := SendThenMark(id, store, queue, at);
    if !marked { return if durable then RetryScheduled else Thrown; }
    assert store.values[id] != old(store.values)[id];
    return DispatchQueued;
  }

  /** The works that went from pending to queued between two states of the store. */
  function Moved(before: Records, after: Records): set<WorkId> {
    set id | id in before && id in after && before[id].status == PendingEnqueue && after[id].status == Queued
  }

  /** These works queued, the others as they were. */
  function Marked(s: Records, moved: set<WorkId>): Records {
    map id | id in s :: if id in moved then s[id].(status := Queued) else s[id]
  }

  lemma MovedIsMarked(before: Records, at: Time, moved: set<WorkId>)
    requires forall id :: id in moved ==> id in Unexpired(before, at) && before[id].status == PendingEnqueue
    ensures Moved(before, Marked(Unexpired(before, at), moved)) == moved
  {
  }

  lemma MarkOneMore(s: Records, moved: set<WorkId>, id: WorkId)
    requires id in s && id !in moved
    ensures id in Marked(s, moved) && Marked(s, moved)[id] == s[id]
    ensures Marked(s, moved)[id := s[id].(status := Queued)] == Marked(s, moved + {id})
  {
  }

  method FlushAttachmentScanOutbox(store: InMemoryAttachmentScanWorkStore, queue: AttachmentScanQueue, limit: nat,
                                   at: Time) returns (considered: nat, queued: nat)
    requires store.Valid()
    modifies store, queue
    ensures considered == Min(limit, |PendingIds(Unexpired(old(store.values), at))|)
    ensures queued == |Moved(old(store.values), store.values)| <= considered
    ensures old(queue.failures) <= queue.failures && considered - queued <= queue.failures - old(queue.failures)
    ensures store.values == Marked(Unexpired(old(store.values), at), Moved(old(store.values), store.values))
    ensures forall id :: id in Moved(old(store.values), store.values) ==> id in queue.sent
  {
    ghost var before := store.values;
    var work := store.ListPendingEnqueue(limit, at);
    ghost var live := store.values;
    ghost var moved: set<WorkId> := {};
    queued := 0;
    for i := 0 to |work|
      invariant queued == |moved| <= i
      invariant old(queue.failures) <= queue.failures && i - queued <= queue.failures - old(queue.failures)
      invariant store.values == Marked(live, moved)
      invariant forall id :: id in moved ==> id in live && live[id].status == PendingEnqueue && id in queue.sent
      invariant forall k :: i <= k < |work| ==> work[k].id !in moved
    {
      MarkOneMore(live, moved, work[i].id);
      var marked := SendThenMark(work[i].id, store, queue, at);
      if marked {
        queued, moved := queued + 1, moved + {work[i].id};
      }
    }
    MovedIsMarked(before, at, moved);
    considered := |work|;
  }

  // ---- Interleaved dispatchers, index readers, workers and crashes over the Redis store ----

  /** readPendingIndex between two of its round trips. */
  datatype Reader = Reader(todo: seq<WorkId>, removing: Option<WorkId>)

  /** A dispatcher before its send, or after the send and before the mark. */
  datatype Sender = Sending(id: WorkId) | Marking(id: WorkId)

  datatype Outbox = Outbox(now: Time, st: Store, index: set<WorkId>, sent: set<WorkId>,
                           readers: map<nat, Reader>, senders: map<nat, Sender>)

  datatype Step =
    | Tick(later: Time)
    | WorkStep(event: Event)                      // any create, worker, cancel or expiry step
    | StartRead(reader: nat, ids: seq<WorkId>)    // SMEMBERS, cut to the limit
    | ReadOne(reader: nat, at: Time)              // GET of the next id, decoded and validated
    | RemoveOne(reader: nat)                      // SREM of an id that did not read as pending
    | StopRead(reader: nat)                       // end, failure or crash
    | StartSend(sender: nat, id: WorkId)
    | Send(sender: nat)
    | Mark(sender: nat, at: Time)
    | StopSend(sender: nat)

  function Started(): Outbox {
    Outbox(0, Store(map[], {}, {}), {}, {}, map[], map[])
  }

  predicate LivePending(o: Outbox, id: WorkId, at: Time) {
    id in o.st.records && o.st.records[id].status == PendingEnqueue && o.st.records[id].expiresAt > at
  }

  /** What readPendingIndex takes for a pending work: it must pass the schema test. */
  predicate ReadsPending(o: Outbox, id: WorkId, at: Time) {
    LivePending(o, id, at) && SchemaValid(o.st.records[id])
  }

  predicate Enabled(o: Outbox, step: Step) {
    match step
    case Tick(later) => o.now <= later
    case WorkStep(e) => !e.op.MarkEnqueued? && e.at <= o.now && Legal(o.st, e)
    case StartRead(r, ids) => r !in o.readers && forall i :: 0 <= i < |ids| ==> ids[i] in o.index
    case ReadOne(r, at) => r in o.readers && o.readers[r].removing.None? && o.readers[r].todo != [] && at <= o.now
    case RemoveOne(r) => r in o.readers && o.readers[r].removing.Some?
    case StopRead(r) => r in o.readers
    case StartSend(d, id) => d !in o.senders
    case Send(d) => d in o.senders && o.senders[d].Sending?
    case Mark(d, at) => d in o.senders && o.senders[d].Marking? && at <= o.now
    case StopSend(d) => d in o.senders
  }

  /** One script; it leaves alone a work that it cannot read. */
  function StoreStep(o: Outbox, e: Event): Outbox {
    if Unread(o.st.records, e.op) then o
    else o.(st := After(o.st, e), index := ScriptIndex(o.index, o.st.records, e.op, e.at))
  }

  function Next(o: Outbox, step: Step): Outbox
    requires Enabled(o, step)
  {
    match step
    case Tick(later) => o.(now := later)
    case WorkStep(e) => StoreStep(o, e)
    case StartRead(r, ids) => o.(readers := o.readers[r := Reader(ids, None)])
    case ReadOne(r, at) =>
      var id, rest := o.readers[r].todo[0], o.readers[r].todo[1..];
      o.(readers := o.readers[r := Reader(rest, if ReadsPending(o, id, at) then None else Some(id))])
    case RemoveOne(r) =>
      o.(index := o.index - {o.readers[r].removing.value},
         readers := o.readers[r := o.readers[r].(removing := None)])
    case StopRead(r) => o.(readers := o.readers - {r})
    case StartSend(d, id) => o.(senders := o.senders[d := Sending(id)])
    case Send(d) => o.(sent := o.sent + {o.senders[d].id}, senders := o.senders[d := Marking(o.senders[d].id)])
    case Mark(d, at) =>
      StoreStep(o, Event(MarkEnqueued(o.senders[d].id), at)).(senders := o.senders - {d})
    case StopSend(d) => o.(senders := o.senders - {d})
  }

  /** Past the send: the statuses a work can only have once it was queued. */
  predicate WasQueued(status: Status) {
    status == Queued || status == Claimed || status == Publishing || status == Completed
  }

  /** Every unexpired pending work whose text fields are filled in is in the index. */
  ghost predicate NothingLost(o: Outbox) {
    forall id :: ReadsPending(o, id, o.now) ==> id in o.index
  }

  ghost predicate SentBeforeQueued(o: Outbox) {
    forall id :: id in o.st.records && WasQueued(o.st.records[id].status) ==> id in o.sent
  }

  ghost predicate Inv(o: Outbox) {
    && Consistent(o.st)
    && o.index <= o.st.created
    && NothingLost(o)
    && SentBeforeQueued(o)
    && (forall r, i :: r in o.readers && 0 <= i < |o.readers[r].todo| ==> o.readers[r].todo[i] in o.st.created)
    && (forall r :: r in o.readers && o.readers[r].removing.Some? ==>
          o.readers[r].removing.value in o.st.created && !ReadsPending(o, o.readers[r].removing.value, o.now))
    && (forall d :: d in o.senders && o.senders[d].Marking? ==> o.senders[d].id in o.sent)
  }

  /** What a store step other than a create leaves: no work becomes pending again, or readable. */
  lemma NeverPendingAgain(o: Outbox, e: Event, id: WorkId, at: Time)
    requires Consistent(o.st) && Legal(o.st, e) && id in o.st.created
    requires ReadsPending(StoreStep(o, e), id, at)
    ensures ReadsPending(o, id, at)
  {
    if !Unread(o.st.records, e.op) {
      AfterEvolves(o.st, e);
      SchemaAfter(o.st, e, id);
    }
  }

  lemma SchemaAfter(st: Store, e: Event, id: WorkId)
    requires Consistent(st) && Legal(st, e) && id in st.created && id in After(st, e).records
    ensures id in st.records && (SchemaValid(After(st, e).records[id]) <==> SchemaValid(st.records[id]))
  {
    if Accepts(st.records, e.op, e.at) && e.op.Id() == id {
      StepKeepsSchema(st.records[id], e.op, e.at);
    }
  }

  lemma StoreStepKeepsIndex(o: Outbox, e: Event)
    requires Inv(o) && Legal(o.st, e) && e.at <= o.now
    ensures NothingLost(StoreStep(o, e)) && StoreStep(o, e).index <= StoreStep(o, e).st.created
  {
    var p := StoreStep(o, e);
    forall id | ReadsPending(p, id, p.now)
      ensures id in p.index
    {
      if id in o.st.created {
        NeverPendingAgain(o, e, id, o.now);
      } else {
        assert e.op.Create? && e.op.work.id == id;
      }
    }
    assert p.index <= p.st.created by {
      if Accepts(o.st.records, e.op, e.at) {
        assert e.op.Id() in o.st.created;
      }
    }
  }

  lemma StoreStepKeepsReaders(o: Outbox, e: Event)
    requires Inv(o) && Legal(o.st, e) && e.at <= o.now
    ensures forall r :: r in o.readers && o.readers[r].removing.Some? ==>
      !ReadsPending(StoreStep(o, e), o.readers[r].removing.value, o.now)
  {
    forall r | r in o.readers && o.readers[r].removing.Some?
      ensures !ReadsPending(StoreStep(o, e), o.readers[r].removing.value, o.now)
    {
      if ReadsPending(StoreStep(o, e), o.readers[r].removing.value, o.now) {
        NeverPendingAgain(o, e, o.readers[r].removing.value, o.now);
      }
    }
  }

  lemma StoreStepKeepsSent(o: Outbox, e: Event)
    requires Consistent(o.st) && SentBeforeQueued(o) && Legal(o.st, e)
    requires e.op.MarkEnqueued? ==> e.op.id in o.sent
    ensures SentBeforeQueued(StoreStep(o, e))
  {
    if !Unread(o.st.records, e.op) {
      forall id | id in After(o.st, e).records && WasQueued(After(o.st, e).records[id].status)
        ensures id in o.sent
      {
        if Accepts(o.st.records, e.op, e.at) && e.op.Id() == id && !e.op.MarkEnqueued? {
          assert WasQueued(o.st.records[id].status);
        }
      }
    }
  }

  lemma StepKeepsInv(o: Outbox, step: Step)
    requires Inv(o) && Enabled(o, step)
    ensures Inv(Next(o, step))
  {
    match step
    case WorkStep(e) => StoreStepInv(o, e);
    case Mark(d, at) => StoreStepInv(o, Event(MarkEnqueued(o.senders[d].id), at));
    case ReadOne(r, at) =>
      assert forall i :: 0 <= i < |o.readers[r].todo[1..]| ==> o.readers[r].todo[1..][i] == o.readers[r].todo[i + 1];
    case _ =>
  }

  lemma StoreStepInv(o: Outbox, e: Event)
    requires Inv(o) && Legal(o.st, e) && e.at <= o.now
    requires e.op.MarkEnqueued? ==> e.op.id in o.sent
    ensures Inv(StoreStep(o, e))
  {
    AfterConsistent(o.st, e);
    StoreStepKeepsIndex(o, e);
    StoreStepKeepsReaders(o, e);
    StoreStepKeepsSent(o, e);
  }

  predicate ValidRun(o: Outbox, steps: seq<Step>)
    decreases |steps|
  {
    steps == [] || (Enabled(o, steps[0]) && ValidRun(Next(o, steps[0]), steps[1..]))
  }

  function End(o: Outbox, steps: seq<Step>): Outbox
    requires ValidRun(o, steps)
    decreases |steps|
  {
    if steps == [] then o else End(Next(o, steps[0]), steps[1..])
  }

  lemma {:induction false} RunKeepsInv(o: Outbox, steps: seq<Step>)
    requires Inv(o) && ValidRun(o, steps)
    ensures Inv(End(o, steps))
    decreases |steps|
  {
    if steps != [] {
      StepKeepsInv(o, steps[0]);
      RunKeepsInv(Next(o, steps[0]), steps[1..]);
    }
  }

  /**
   * After any interleaving of creates, dispatchers, index readers whose read and removal are
   * separate, workers, expiries and crashes, an unexpired pending work can be missing from the index
   * only if its text fields are not filled in, and a work has left pending for the queue only if its
   * id was sent.
   */
  lemma OnlyUnreadableIsLost(steps: seq<Step>)
    requires ValidRun(Started(), steps)
    ensures NothingLost(End(Started(), steps)) && SentBeforeQueued(End(Started(), steps))
  {
    RunKeepsInv(Started(), steps);
  }

  // ---- With readable creates nothing is lost ----

  predicate CreatesReadable(steps: seq<Step>) {
    forall i :: 0 <= i < |steps| && steps[i].WorkStep? && steps[i].event.op.Create? ==>
      SchemaValid(steps[i].event.op.work)
  }

  lemma StepStaysReadable(o: Outbox, step: Step)
    requires AllReadable(o.st.records) && Enabled(o, step) && CreatesReadable([step])
    ensures AllReadable(Next(o, step).st.records)
  {
    assert [step][0] == step;
    if step.WorkStep? || step.Mark? {
      var e := if step.WorkStep? then step.event else Event(MarkEnqueued(o.senders[step.sender].id), step.at);
      if Accepts(o.st.records, e.op, e.at) {
        StepKeepsSchema(o.st.records[e.op.Id()], e.op, e.at);
      }
    }
  }

  lemma {:induction false} RunStaysReadable(o: Outbox, steps: seq<Step>)
    requires AllReadable(o.st.records) && ValidRun(o, steps) && CreatesReadable(steps)
    ensures AllReadable(End(o, steps).st.records)
    decreases |steps|
  {
    if steps != [] {
      assert CreatesReadable([steps[0]]) && CreatesReadable(steps[1..]);
      StepStaysReadable(o, steps[0]);
      RunStaysReadable(Next(o, steps[0]), steps[1..]);
    }
  }

  /** No lost work: with text fields filled in at creation every unexpired pending work is in the index. */
  lemma NoLostWork(steps: seq<Step>)
    requires ValidRun(Started(), steps) && CreatesReadable(steps)
    ensures var o := End(Started(), steps);
            forall id :: LivePending(o, id, o.now) ==> id in o.index
  {
    RunStaysReadable(Started(), steps);
    OnlyUnreadableIsLost(steps);
  }

  // ---- A dispatcher that is not interrupted queues its work ----

  /** Sent, then marked, with nothing in between. */
  lemma DispatchQueues(o: Outbox, d: nat, id: WorkId)
    requires d !in o.senders && ReadsPending(o, id, o.now)
    ensures var p := Next(o, StartSend(d, id));
            && Enabled(p, Send(d)) && Enabled(Next(p, Send(d)), Mark(d, o.now))
            && var q := Next(Next(p, Send(d)), Mark(d, o.now));
               && q.st.records == o.st.records[id := o.st.records[id].(status := Queued)]
               && id in q.sent && q.index == o.index - {id}
  {
  }

  // ---- A work can drop out exactly when it cannot be read ----

  /** id is an unexpired pending work outside the index. */
  predicate Lost(o: Outbox, id: WorkId) {
    LivePending(o, id, o.now) && id !in o.index
  }

  lemma StepKeepsReadable(o: Outbox, step: Step, id: WorkId)
    requires Inv(o) && Enabled(o, step) && id in o.st.records && SchemaValid(o.st.records[id])
    ensures id in Next(o, step).st.created
    ensures id in Next(o, step).st.records ==> SchemaValid(Next(o, step).st.records[id])
  {
    if step.WorkStep? || step.Mark? {
      var e := if step.WorkStep? then step.event else Event(MarkEnqueued(o.senders[step.sender].id), step.at);
      if !Unread(o.st.records, e.op) && id in After(o.st, e).records {
        SchemaAfter(o.st, e, id);
      }
    }
  }

  lemma StepStaysGone(o: Outbox, step: Step, id: WorkId)
    requires Inv(o) && Enabled(o, step) && id in o.st.created && id !in o.st.records
    ensures id in Next(o, step).st.created && id !in Next(o, step).st.records
  {
  }

  /** As long as it is there, a work that could be read can be read. */
  lemma {:induction false} RunKeepsReadable(o: Outbox, steps: seq<Step>, id: WorkId)
    requires Inv(o) && ValidRun(o, steps) && id in o.st.created
    requires id in o.st.records ==> SchemaValid(o.st.records[id])
    ensures id in End(o, steps).st.records ==> SchemaValid(End(o, steps).st.records[id])
    decreases |steps|
  {
    if steps != [] {
      if id in o.st.records {
        StepKeepsReadable(o, steps[0], id);
      } else {
        StepStaysGone(o, steps[0], id);
      }
      StepKeepsInv(o, steps[0]);
      RunKeepsReadable(Next(o, steps[0]), steps[1..], id);
    }
  }

  lemma {:induction false} Unused(used: set<nat>) returns (n: nat)
    ensures n !in used && forall m :: m in used ==> m < n
    decreases |used|
  {
    if used == {} {
      n := 0;
    } else {
      var top :| top in used;
      var rest := Unused(used - {top});
      n := Max(rest, top + 1);
      assert forall m :: m in used ==> m == top || m in used - {top};
    }
  }

  /** One pass over the index that meets the id. */
  function Pass(r: nat, id: WorkId, at: Time): seq<Step> {
    [StartRead(r, [id]), ReadOne(r, at), RemoveOne(r)]
  }

  lemma RunStep(o: Outbox, step: Step, rest: seq<Step>)
    requires Enabled(o, step) && ValidRun(Next(o, step), rest)
    ensures ValidRun(o, [step] + rest) && End(o, [step] + rest) == End(Next(o, step), rest)
  {
    assert ([step] + rest)[1..] == rest;
  }

  lemma PassDrops(o: Outbox, r: nat, id: WorkId)
    requires id in o.index && r !in o.readers && !ReadsPending(o, id, o.now)
    ensures ValidRun(o, Pass(r, id, o.now))
    ensures var p := End(o, Pass(r, id, o.now)); p.st == o.st && p.now == o.now && id !in p.index
  {
    var start, read, remove := StartRead(r, [id]), ReadOne(r, o.now), RemoveOne(r);
    var a := Next(o, start);
    var b := Next(a, read);
    assert b.readers[r] == Reader([id][1..], Some(id));
    RunStep(b, remove, []);
    RunStep(a, read, [remove]);
    RunStep(o, start, [read, remove]);
    assert [remove] + [] == [remove] && [read] + [remove] == [read, remove];
    assert [start] + [read, remove] == Pass(r, id, o.now);
  }

  /**
   * From any reachable state, an unexpired pending work can end up outside the index while it is
   * still unexpired and pending exactly when its text fields are not filled in.
   */
  lemma LostIffUnreadable(steps: seq<Step>, id: WorkId)
    requires ValidRun(Started(), steps) && LivePending(End(Started(), steps), id, End(Started(), steps).now)
    ensures var o := End(Started(), steps);
            (exists more :: ValidRun(o, more) && Lost(End(o, more), id)) <==> !SchemaValid(o.st.records[id])
  {
    var o := End(Started(), steps);
    RunKeepsInv(Started(), steps);
    if SchemaValid(o.st.records[id]) {
      forall more | ValidRun(o, more)
        ensures !Lost(End(o, more), id)
      {
        RunKeepsReadable(o, more, id);
        RunKeepsInv(o, more);
      }
    } else if id in o.index {
      var r := Unused(o.readers.Keys);
      PassDrops(o, r, id);
      assert Lost(End(o, Pass(r, id, o.now)), id);
    } else {
      assert ValidRun(o, []) && End(o, []) == o;
    }
  }

  /** A work without a title is created, indexed, and dropped by the first pass over the index. */
  lemma UntitledIsLost()
    ensures var w := NewWork(1, 2, "m", Jobs.Scope("p", "s", Some("u")), Target("k", "church_image", "d", ""), 10, 0);
            var steps := [WorkStep(Event(Create(w), 0))] + Pass(0, 1, 0);
            !IsBlank(w.lineMessageId) && ValidRun(Started(), steps) && Lost(End(Started(), steps), 1)
  {
    var w := NewWork(1, 2, "m", Jobs.Scope("p", "s", Some("u")), Target("k", "church_image", "d", ""), 10, 0);
    var create := WorkStep(Event(Create(w), 0));
    var o := Next(Started(), create);
    assert !IsSpace(w.lineMessageId[0]);
    PassDrops(o, 0, 1);
    RunStep(Started(), create, Pass(0, 1, 0));
  }
}
