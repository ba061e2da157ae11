/**
 * The schedule over whole runs of its operations, src/agent/memory-store.ts: the canonical invariant
 * in every reachable state, and no way back for a deleted entry.
 */
module ScheduleRuns {
  import opened Basics
  import opened ScheduleDates
  import opened ScheduleMemory
  import opened ScheduleStore

  /** What the methods of the store do when they do anything. */
  datatype Op =
    | Save(inputs: seq<BatchInput>)
    | Append(memory: MemoryId, input: EntryInput)
    | Change(entry: EntryId, changes: Changes)
    | Drop(entry: EntryId)
    | ForgetMemory(memory: MemoryId)
    | Purge(cutoff: Time)

  datatype Event = Event(op: Op, at: Time)

  predicate Enabled(s: Store, e: Event) {
    match e.op
    case Save(inputs) => ValidBatch(inputs)
    case Append(id, input) =>
      ActiveMemory(s.memories, id, e.at) && s.memories[id].key.period == Prefix(input.serviceDate, 7)
    case Change(id, _) => ActiveEntry(s.entries, id, e.at)
    case Drop(id) => ActiveEntry(s.entries, id, e.at)
    case ForgetMemory(id) => id in s.memories
    case Purge(_) => true
  }

  ghost function Next(s: Store, e: Event, ttlMs: nat): Store
    requires Enabled(s, e)
  {
    match e.op
    case Save(inputs) => ReplaceAll(s, inputs, e.at, ttlMs)
    case Append(id, input) => AppendEntry(s, id, input, e.at)
    case Change(id, changes) => ChangeEntry(s, id, changes)
    case Drop(id) => DropEntry(s, id, e.at)
    case ForgetMemory(id) => Forget(s, id, e.at)
    case Purge(cutoff) => Purged(s, cutoff)
  }

  ghost predicate Run(states: seq<Store>, events: seq<Event>, ttlMs: nat) {
    && |states| == |events| + 1
    && states[0] == Store(map[], map[], 0)
    && (forall i, j :: 0 <= i <= j < |events| ==> events[i].at <= events[j].at)
    && forall i :: 0 <= i < |events| ==>
         Enabled(states[i], events[i]) && states[i + 1] == Next(states[i], events[i], ttlMs)
  }

  lemma StepKeepsInv(s: Store, e: Event, ttlMs: nat)
    requires Inv(s, e.at) && Enabled(s, e)
    ensures Inv(Next(s, e, ttlMs), e.at)
  {
    match e.op
    case Save(inputs) => ReplaceAllKeeps(s, inputs, e.at, ttlMs);
    case Append(id, input) => AppendKeepsInv(s, id, input, e.at);
    case Change(id, changes) => ChangeKeepsInv(s, id, changes, e.at);
    case Drop(id) => DropKeepsInv(s, id, e.at);
    case ForgetMemory(id) => ForgetKeepsInv(s, id, e.at);
    case Purge(cutoff) => PurgeKeepsInv(s, e.at, cutoff);
  }

  lemma {:induction false} RunKeepsInv(states: seq<Store>, events: seq<Event>, ttlMs: nat, k: nat, now: Time)
    requires Run(states, events, ttlMs) && k < |states| && (forall i :: 0 <= i < k ==> events[i].at <= now)
    ensures Inv(states[k], now)
    decreases k
  {
    if k > 0 {
      RunKeepsInv(states, events, ttlMs, k - 1, events[k - 1].at);
      StepKeepsInv(states[k - 1], events[k - 1], ttlMs);
      InvLater(states[k], events[k - 1].at, now);
    }
  }

  /**
   * In every reachable state, at any time from the last operation on: no two active memories share a
   * profile, type and month, and every searchable entry stands in the active memory of its own.
   */
  lemma ScheduleIsCanonical(states: seq<Store>, events: seq<Event>, ttlMs: nat, k: nat, now: Time)
    requires Run(states, events, ttlMs) && k < |states| && (forall i :: 0 <= i < k ==> events[i].at <= now)
    ensures forall a: MemoryId, b: MemoryId ::
              (ActiveMemory(states[k].memories, a, now) && ActiveMemory(states[k].memories, b, now) &&
               states[k].memories[a].key == states[k].memories[b].key) ==> a == b
    ensures forall e :: e in Searchable(states[k], now) ==>
              ActiveMemory(states[k].memories, e.memoryId, now) && e in states[k].memories[e.memoryId].listed
  {
    RunKeepsInv(states, events, ttlMs, k, now);
    forall a: MemoryId, b: MemoryId | ActiveMemory(states[k].memories, a, now) &&
                                      ActiveMemory(states[k].memories, b, now) &&
                                      states[k].memories[a].key == states[k].memories[b].key
      ensures a == b
    {
      assert Holds(states[k], a, states[k].memories[a].key, now) && Holds(states[k], b, states[k].memories[a].key, now);
    }
    forall e | e in Searchable(states[k], now)
      ensures ActiveMemory(states[k].memories, e.memoryId, now) && e in states[k].memories[e.memoryId].listed
    {
      SearchableIsCanonical(states[k], now, now, e);
    }
  }

  // ---- Deleted for good ----

  /** The entry is known and is deleted, or gone altogether. */
  predicate Dead(s: Store, e: EntryId) {
    e < s.drawn && (e in s.entries ==> s.entries[e].deletedAt.Some?)
  }

  lemma ForgetKeepsDead(s: Store, id: MemoryId, at: Time, e: EntryId)
    requires Inv(s, at) && id in s.memories && Dead(s, e)
    ensures Dead(Forget(s, id, at), e)
  {
    assert Consistent(s.memories[id], id, s.drawn);
    ForgetAt(s, id, at, e);
  }

  lemma ReplaceKeepsDead(s: Store, input: BatchInput, at: Time, ttlMs: nat, e: EntryId)
    requires Inv(s, at) && HasPeriod(input) && Dead(s, e)
    ensures Dead(Replace(s, input, at, ttlMs), e)
  {
    var key := KeyOf(input);
    if id: MemoryId :| Holds(s, id, key, at) {
      ForgetKeepsDead(s, id, at, e);
    }
    var cleared := Cleared(s, key, at);
    ClearedKeepsInv(s, key, at);
    NewEntriesAreNew(cleared, key, input, at, ttlMs);
    AddedAt(cleared, key, input, at, ttlMs, e);
  }

  lemma {:induction false} ReplaceAllKeepsDead(s: Store, inputs: seq<BatchInput>, at: Time, ttlMs: nat, e: EntryId)
    requires Inv(s, at) && AllHavePeriods(inputs) && Dead(s, e)
    ensures Dead(ReplaceAll(s, inputs, at, ttlMs), e)
    decreases |inputs|
  {
    if inputs != [] {
      var front := inputs[..|inputs| - 1];
      ReplaceAllKeepsDead(s, front, at, ttlMs, e);
      ReplaceAllKeeps(s, front, at, ttlMs);
      ReplaceKeepsDead(ReplaceAll(s, front, at, ttlMs), inputs[|inputs| - 1], at, ttlMs, e);
    }
  }

  lemma StepKeepsDead(s: Store, event: Event, ttlMs: nat, e: EntryId)
    requires Inv(s, event.at) && Enabled(s, event) && Dead(s, e)
    ensures Dead(Next(s, event, ttlMs), e)
  {
    match event.op
    case Save(inputs) => ReplaceAllKeepsDead(s, inputs, event.at, ttlMs, e);
    case ForgetMemory(id) => ForgetKeepsDead(s, id, event.at, e);
    case _ =>
  }

  /**
   * A deleted or purged entry never comes back, although the list of its memory may keep an
   * undeleted copy of it and later operations copy such lists.
   */
  lemma {:induction false} DeletedStaysDeleted(states: seq<Store>, events: seq<Event>, ttlMs: nat, i: nat, k: nat,
                                               e: EntryId, later: Time)
    requires Run(states, events, ttlMs) && i <= k < |states| && Dead(states[i], e)
    ensures Dead(states[k], e) && !ActiveEntry(states[k].entries, e, later)
    decreases k
  {
    if i < k {
      DeletedStaysDeleted(states, events, ttlMs, i, k - 1, e, later);
      RunKeepsInv(states, events, ttlMs, k - 1, events[k - 1].at);
      StepKeepsDead(states[k - 1], events[k - 1], ttlMs, e);
    }
  }
}
